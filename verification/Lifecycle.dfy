/** The placement life cycle and the guarantee: the tables it touches, and every operation as a
    function from the tables before to the tables after, or a refusal that leaves them alone. */
module Lifecycle {
  import opened Base
  import opened Calendar
  import opened Shifts
  import opened Matching
  import O = Outbox

  datatype Placement = Placement(request: Id, candidate: Id, status: Status, payRwf: int, payUnit: PayUnit,
                                 covers: Option<Id>)

  datatype PersonStatus = Registered | Assessed | Trained | Placed | Inactive | Withdrawn

  datatype CohortOutcome = CompletedCohort | WithdrewFromCohort | DidNotFinish

  /** A day of attendance: whose, and when. */
  type LogKey = (Id, int)

  /** Days are day numbers; started and ended are the placement columns of those names. */
  datatype Db = Db(
    requests: seq<WorkRequest>, cancelled: set<Id>, placements: seq<Placement>, log: map<LogKey, bool>,
    started: map<Id, int>, ended: map<Id, int>, people: seq<PersonStatus>, members: map<(Id, Id), Option<CohortOutcome>>, results: seq<Id>,
    box: seq<O.Message>)

  datatype Refusal =
    | NoSuchRow | WrongStatus | NeedsReason | AlreadyCovered | Clashes | OfferedBefore | CoverOnTheTable
    | NotEligible | BadPay | AlreadyCancelled | HasStarted | NotAMember | BadRequest | NothingToAsk

  /** What a message needs to know besides the tables: the time, whether the candidate has a
      smartphone, the employer's primary contact, and whether a contract could be issued. */
  datatype Notice = Notice(now: int, smartphone: bool, contact: Option<Id>, contract: bool)

  // ---- the guards the database keeps ---------------------------------------------------

  /** Two rows that cannot both hold the candidate's time. */
  predicate Collide(requests: seq<WorkRequest>, a: Placement, b: Placement) {
    && a.candidate == b.candidate && a.request != b.request
    && a.request < |requests| && b.request < |requests|
    && Clash(requests[a.request].hours, requests[b.request].hours)
  }

  /** The trigger on every insert and every change of status: a live row may not clash with
      another live row of the same candidate. */
  predicate GuardRefuses(requests: seq<WorkRequest>, ps: seq<Placement>, pid: Id, row: Placement) {
    Live(row.status) &&
      exists i :: 0 <= i < |ps| && i != pid && Live(ps[i].status) && Collide(requests, ps[i], row)
  }

  predicate OnRequestAlready(ps: seq<Placement>, row: Placement) {
    exists i :: 0 <= i < |ps| && ps[i].request == row.request && ps[i].candidate == row.candidate
  }

  /** On the table: the cover has not been declined or cancelled. */
  predicate Standing(p: Placement) {
    p.status != Declined && p.status != Cancelled
  }

  predicate CoverStanding(ps: seq<Placement>, row: Placement) {
    row.covers.Some? && exists i :: 0 <= i < |ps| && ps[i].covers == row.covers && Standing(ps[i])
  }

  function Insert(db: Db, row: Placement): Result<Db, Refusal> {
    if GuardRefuses(db.requests, db.placements, |db.placements|, row) then Err(Clashes)
    else if OnRequestAlready(db.placements, row) then Err(OfferedBefore)
    else if CoverStanding(db.placements, row) then Err(CoverOnTheTable)
    else Ok(db.(placements := db.placements + [row]))
  }

  function SetStatus(db: Db, pid: Id, s: Status): Result<Db, Refusal>
    requires pid < |db.placements|
  {
    var row := db.placements[pid].(status := s);
    if GuardRefuses(db.requests, db.placements, pid, row) then Err(Clashes)
    else Ok(db.(placements := db.placements[pid := row]))
  }

  // ---- the derived candidate status ------------------------------------------------------

  predicate HasWork(ps: seq<Placement>, c: Id) {
    exists i :: 0 <= i < |ps| && ps[i].candidate == c && (ps[i].status == Accepted || ps[i].status == Active)
  }

  predicate HasFinishedCohort(members: map<(Id, Id), Option<CohortOutcome>>, c: Id) {
    exists k :: k in members && k.1 == c && members[k] == Some(CompletedCohort)
  }

  function Derived(ps: seq<Placement>, members: map<(Id, Id), Option<CohortOutcome>>, results: seq<Id>, c: Id): PersonStatus {
    if HasWork(ps, c) then Placed
    else if HasFinishedCohort(members, c) then Trained
    else if c in results then Assessed
    else Registered
  }

  predicate Decided(s: PersonStatus) { s == Withdrawn || s == Inactive }

  function Refresh(db: Db, c: Id): Db {
    if c < |db.people| && !Decided(db.people[c])
    then db.(people := db.people[c := Derived(db.placements, db.members, db.results, c)])
    else db
  }

  // ---- messages each step queues or calls off -----------------------------------------------

  function ToCandidate(db: Db, pid: Id, t: O.Template, smartphone: bool, due: int): Db
    requires pid < |db.placements|
  {
    var m := O.NewMessage(O.Recipient.Candidate(db.placements[pid].candidate), Some(pid), t,
                          if smartphone then O.WhatsApp else O.Sms, due);
    db.(box := O.Post(db.box, m))
  }

  function ToContact(db: Db, pid: Id, t: O.Template, contact: Option<Id>, due: int): Db {
    if contact.None? then db
    else db.(box := O.Post(db.box, O.NewMessage(O.Contact(contact.value), Some(pid), t, O.WhatsApp, due)))
  }

  function OnOffered(db: Db, pid: Id, n: Notice): Db
    requires pid < |db.placements|
  {
    ToContact(ToCandidate(db, pid, O.PlacementOffer, n.smartphone, n.now), pid, O.EmployerWorkerAssigned, n.contact, n.now)
  }

  function OnEnded(db: Db, pid: Id): Db { db.(box := O.CallOffFor(db.box, pid)) }

  /** The reminder goes out at six the evening before, unless that has passed; the check-ins at
      nine on their days. */
  function OnStarted(db: Db, pid: Id, startedOn: int, n: Notice): Db
    requires pid < |db.placements|
  {
    var reminderAt := O.AtKigali(startedOn - 1, 18 * O.HOUR);
    var a := if reminderAt <= n.now then db else ToCandidate(db, pid, O.ShiftReminder, n.smartphone, reminderAt);
    var b := ToCandidate(a, pid, O.FollowUp(O.Day1), n.smartphone, O.AtKigali(startedOn + 1, 9 * O.HOUR));
    var c := ToCandidate(b, pid, O.FollowUp(O.Week1), n.smartphone, O.AtKigali(startedOn + 7, 9 * O.HOUR));
    var d := ToCandidate(c, pid, O.FollowUp(O.Day30), n.smartphone, O.AtKigali(startedOn + 30, 9 * O.HOUR));
    ToCandidate(d, pid, O.FollowUp(O.Day90), n.smartphone, O.AtKigali(startedOn + 90, 9 * O.HOUR))
  }

  // ---- offering ---------------------------------------------------------------------------

  predicate InPool(db: Db, c: Id) { c < |db.people| && !Decided(db.people[c]) }

  function OfferRow(db: Db, rid: Id, cid: Id): Placement
    requires rid < |db.requests|
  {
    Placement(rid, cid, Offered, db.requests[rid].payRwf, db.requests[rid].payUnit, None)
  }

  /** What the matcher says of this candidate for this request, on these tables. */
  predicate Passes(db: Db, rid: Id, facts: Candidate) {
    && rid < |db.requests| && Sane(db.requests[rid]) && InPool(db, facts.id)
    && Survives(
         facts.(committed := GuardRefuses(db.requests, db.placements, |db.placements|, OfferRow(db, rid, facts.id))),
         db.requests[rid])
  }

  /** The write half of an offer: the guarded insert, then the messages. */
  function WriteOffer(db: Db, rid: Id, cid: Id, n: Notice): Result<Db, Refusal> {
    if rid >= |db.requests| || cid >= |db.people| then Err(NoSuchRow)
    else
      match Insert(db, OfferRow(db, rid, cid))
      case Err(e) => Err(e)
      case Ok(after) => Ok(OnOffered(after, |db.placements|, n))
  }

  function Offer(db: Db, rid: Id, facts: Candidate, n: Notice): Result<Db, Refusal> {
    if !Passes(db, rid, facts) then Err(NotEligible) else WriteOffer(db, rid, facts.id, n)
  }

  // ---- answering, starting, ending ------------------------------------------------------------

  function Respond(db: Db, pid: Id, accepted: bool, n: Notice): Result<Db, Refusal> {
    if pid >= |db.placements| || db.placements[pid].status != Offered then Err(WrongStatus)
    else
      match SetStatus(db, pid, if accepted then Accepted else Declined)
      case Err(e) => Err(e)
      case Ok(a) =>
        var b := Refresh(a, db.placements[pid].candidate);
        Ok(if !accepted then OnEnded(b, pid)
           else if n.contract then ToCandidate(b, pid, O.PlacementContract, n.smartphone, n.now) else b)
  }

  /** The start date beside the status, and the candidate's own status after it. */
  function Begun(db: Db, pid: Id, startedOn: int): Db
    requires pid < |db.placements|
  {
    Refresh(db.(started := db.started[pid := startedOn]), db.placements[pid].candidate)
  }

  function Start(db: Db, pid: Id, startedOn: int, n: Notice): Result<Db, Refusal> {
    if pid >= |db.placements| || db.placements[pid].status !in {Offered, Accepted} then Err(WrongStatus)
    else
      match SetStatus(db, pid, Active)
      case Err(e) => Err(e)
      case Ok(a) => Ok(OnStarted(Begun(a, pid, startedOn), pid, startedOn, n))
  }

  /** fn_placement_end_date: what is given or today, and never before the start. */
  function EndDate(given: Option<int>, startedOn: Option<int>, today: int): int {
    var end := if given.Some? then given.value else today;
    var start := if startedOn.Some? then startedOn.value else today;
    if end < start then start else end
  }

  function StartedOn(db: Db, pid: Id): Option<int> { if pid in db.started then Some(db.started[pid]) else None }

  function Finished(db: Db, pid: Id, on: int): Db
    requires pid < |db.placements|
  {
    Refresh(db.(ended := db.ended[pid := on]), db.placements[pid].candidate)
  }

  function End(db: Db, pid: Id, from: set<Status>, to: Status, endedOn: Option<int>, today: int): Result<Db, Refusal> {
    if pid >= |db.placements| || db.placements[pid].status !in from then Err(WrongStatus)
    else
      match SetStatus(db, pid, to)
      case Err(e) => Err(e)
      case Ok(a) => Ok(OnEnded(Finished(a, pid, EndDate(endedOn, StartedOn(db, pid), today)), pid))
  }

  function Complete(db: Db, pid: Id, endedOn: Option<int>, today: int): Result<Db, Refusal> {
    End(db, pid, {Active}, Completed, endedOn, today)
  }

  function Terminate(db: Db, pid: Id, reasonGiven: bool, endedOn: Option<int>, today: int): Result<Db, Refusal> {
    if !reasonGiven then Err(NeedsReason) else End(db, pid, {Accepted, Active}, Terminated, endedOn, today)
  }

  // ---- attendance ----------------------------------------------------------------------------

  predicate Logged(log: map<LogKey, bool>, pid: Id) {
    exists k :: k in log && k.0 == pid
  }

  predicate Attended(log: map<LogKey, bool>, pid: Id) {
    exists k :: k in log && k.0 == pid && log[k]
  }

  predicate Covered(ps: seq<Placement>, pid: Id) {
    exists i :: 0 <= i < |ps| && ps[i].covers == Some(pid)
  }

  function LogAttendance(db: Db, pid: Id, day: int, present: bool, reasonGiven: bool): Result<Db, Refusal> {
    if pid >= |db.placements| then Err(NoSuchRow)
    else
      var p := db.placements[pid];
      if p.status !in {Accepted, Active, NoShow} then Err(WrongStatus)
      else if !present && !reasonGiven then Err(NeedsReason)
      else if present && p.status == NoShow && Covered(db.placements, pid) then Err(AlreadyCovered)
      else
        var logged := db.(log := db.log[(pid, day) := present]);
        if present then
          if p.status != NoShow then Ok(logged)
          else
            match SetStatus(logged, pid, Active)
            case Err(e) => Err(e)
            case Ok(a) => Ok(Refresh(a, p.candidate))
        else if Attended(logged.log, pid) then Ok(logged)
        else
          match SetStatus(logged, pid, NoShow)
          case Err(e) => Err(e)
          case Ok(a) => Ok(OnEnded(Refresh(a, p.candidate), pid))
  }

  /** The guarantee is invoked: a successful log of an absence on a placement never attended. */
  predicate Invokes(db: Db, pid: Id, day: int, present: bool) {
    !present && !Attended(db.log[(pid, day) := false], pid)
  }

  // ---- asking the employer ---------------------------------------------------------------------

  const SILENT_AFTER_DAYS := 2
  const STILL_MATTERS_DAYS := 7

  /** Nothing has been logged for these days, counted from the last day logged or the start. */
  predicate Silent(db: Db, pid: Id, today: int)
    requires pid in db.started
  {
    if Logged(db.log, pid) then forall k :: k in db.log && k.0 == pid ==> today - k.1 >= SILENT_AFTER_DAYS
    else today - db.started[pid] >= SILENT_AFTER_DAYS
  }

  /** A row of v_unconfirmed_attendance that is silent long enough: running, or finished so
      lately that the answer still changes the pay. */
  predicate Unconfirmed(db: Db, pid: Id, today: int) {
    && pid < |db.placements| && pid in db.started && db.started[pid] < today
    && (db.placements[pid].status == Active
        || (db.placements[pid].status == Completed && pid in db.ended && db.ended[pid] >= today - STILL_MATTERS_DAYS))
    && Silent(db, pid, today)
  }

  /** One row of the daily chase. */
  function Chase(db: Db, pid: Id, contact: Option<Id>, today: int, now: int): Result<Db, Refusal> {
    if !Unconfirmed(db, pid, today) then Err(NothingToAsk)
    else Ok(ToContact(db, pid, O.AttendanceUnconfirmed, contact, now))
  }

  // ---- cover ---------------------------------------------------------------------------------

  /** The pay terms default to those of the placement being covered; zero counts as not given. */
  function CoverRow(db: Db, failed: Id, cid: Id, pay: Option<int>): Placement
    requires failed < |db.placements|
  {
    var f := db.placements[failed];
    Placement(f.request, cid, Offered, if pay.Some? && pay.value != 0 then pay.value else f.payRwf, f.payUnit, Some(failed))
  }

  /** _refuse_unsafe_cover: in the pool, and cleared by rights_exclusion. */
  predicate ClearedForCover(db: Db, failed: Id, facts: Candidate) {
    && failed < |db.placements| && db.placements[failed].request < |db.requests|
    && Sane(db.requests[db.placements[failed].request])
    && InPool(db, facts.id)
    && RightsExclusion(facts, db.requests[db.placements[failed].request]).None?
  }

  function TellOfCover(db: Db, failed: Id, pid: Id, n: Notice): Db
    requires pid < |db.placements|
  {
    var told := OnOffered(db, pid, n);
    if exists k :: k in db.log && k.0 == failed && !db.log[k]
    then ToContact(told, pid, O.EmployerCoverSent, n.contact, n.now) else told
  }

  function CoverSent(db: Db, failed: Id, cid: Id, pay: Option<int>, n: Notice): Result<Db, Refusal>
    requires failed < |db.placements|
  {
    var row := CoverRow(db, failed, cid, pay);
    if row.payRwf <= 0 then Err(BadPay)
    else
      match Insert(db, row)
      case Err(e) => Err(e)
      case Ok(after) => Ok(TellOfCover(after, failed, |db.placements|, n))
  }

  function Replace(db: Db, failed: Id, facts: Candidate, pay: Option<int>, n: Notice): Result<Db, Refusal> {
    if failed >= |db.placements| then Err(NoSuchRow)
    else if db.placements[failed].status != NoShow then Err(WrongStatus)
    else if !ClearedForCover(db, failed, facts) then Err(NotEligible)
    else CoverSent(db, failed, facts.id, pay, n)
  }

  // ---- withdrawing a request --------------------------------------------------------------------

  predicate Waiting(p: Placement, rid: Id) {
    p.request == rid && (p.status == Offered || p.status == Accepted)
  }

  function WithWaitingCancelled(ps: seq<Placement>, rid: Id): seq<Placement> {
    seq(|ps|, i requires 0 <= i < |ps| => if Waiting(ps[i], rid) then ps[i].(status := Cancelled) else ps[i])
  }

  /** For each placement cancelled, in row order: call off what is queued, tell the worker,
      and recompute their status. */
  function TellCancelled(db: Db, before: seq<Placement>, rid: Id, upTo: nat, n: Notice): Db
    requires upTo <= |before| == |db.placements|
    ensures TellCancelled(db, before, rid, upTo, n).placements == db.placements
    decreases upTo
  {
    if upTo == 0 then db
    else
      var d := TellCancelled(db, before, rid, upTo - 1, n);
      if !Waiting(before[upTo - 1], rid) then d
      else Refresh(ToCandidate(OnEnded(d, upTo - 1), upTo - 1, O.PlacementCancelled, n.smartphone, n.now),
                   before[upTo - 1].candidate)
  }

  predicate HasStartedWork(ps: seq<Placement>, rid: Id) {
    exists i :: 0 <= i < |ps| && ps[i].request == rid && (ps[i].status == Active || ps[i].status == Completed)
  }

  function CancelRequest(db: Db, rid: Id, reasonGiven: bool, employer: Option<Id>, n: Notice): Result<Db, Refusal> {
    if !reasonGiven then Err(NeedsReason)
    else if rid >= |db.requests| || (employer.Some? && db.requests[rid].employer != employer.value) then Err(NoSuchRow)
    else if rid in db.cancelled then Err(AlreadyCancelled)
    else if HasStartedWork(db.placements, rid) then Err(HasStarted)
    else
      var d := db.(placements := WithWaitingCancelled(db.placements, rid), cancelled := db.cancelled + {rid});
      Ok(TellCancelled(d, db.placements, rid, |db.placements|, n))
  }

  // ---- what else feeds the candidate status --------------------------------------------------------

  function AddMember(db: Db, cohort: Id, cid: Id): Result<Db, Refusal> {
    if cid >= |db.people| then Err(NoSuchRow)
    else if (cohort, cid) in db.members then Ok(db)
    else Ok(db.(members := db.members[(cohort, cid) := None]))
  }

  function RecordOutcome(db: Db, cohort: Id, cid: Id, outcome: CohortOutcome): Result<Db, Refusal> {
    if (cohort, cid) !in db.members then Err(NotAMember)
    else Ok(Refresh(db.(members := db.members[(cohort, cid) := Some(outcome)]), cid))
  }

  /** Writes the status without recomputing it: registered becomes assessed, nothing else moves. */
  function RecordResult(db: Db, cid: Id): Result<Db, Refusal> {
    if cid >= |db.people| then Err(NoSuchRow)
    else
      var d := db.(results := db.results + [cid]);
      Ok(if d.people[cid] == Registered then d.(people := d.people[cid := Assessed]) else d)
  }

  function Register(db: Db): Result<Db, Refusal> { Ok(db.(people := db.people + [Registered])) }

  function Post(db: Db, r: WorkRequest): Result<Db, Refusal> {
    if !Sane(r) || !InOrder(r.hours) then Err(BadRequest) else Ok(db.(requests := db.requests + [r]))
  }

  /** Erasure marks the person withdrawn. */
  function Erase(db: Db, cid: Id): Result<Db, Refusal> {
    if cid >= |db.people| then Err(NoSuchRow) else Ok(db.(people := db.people[cid := Withdrawn]))
  }

  // ---- one row of the dispatcher's work, and a deferral -----------------------------------------------

  function Deliver(db: Db, row: Id, consents: seq<O.Consent>, phone: bool, reply: O.Reply, moment: int): Result<Db, Refusal> {
    if row >= |db.box| || !O.Due(db.box[row], moment, O.InQuietHours(moment)) then Err(WrongStatus)
    else Ok(db.(box := db.box[row := O.DispatchOne(db.box[row], consents, phone, reply, moment).0]))
  }

  function Defer(db: Db, moment: int): Result<Db, Refusal> { Ok(db.(box := O.Deferred(db.box, moment))) }

  function StopTo(db: Db, cid: Id): Result<Db, Refusal> { Ok(db.(box := O.CallOffTo(db.box, cid))) }

  // ---- runs ------------------------------------------------------------------------------------------

  datatype Op =
    | DoOffer(rid: Id, facts: Candidate, n: Notice)
    | DoWriteOffer(rid: Id, cid: Id, n: Notice)
    | DoRespond(pid: Id, accepted: bool, n: Notice)
    | DoStart(pid: Id, day: int, n: Notice)
    | DoComplete(pid: Id, endedOn: Option<int>, today: int)
    | DoTerminate(pid: Id, reasonGiven: bool, endedOn: Option<int>, today: int)
    | DoChase(pid: Id, contact: Option<Id>, today: int, now: int)
    | DoLog(pid: Id, day: int, present: bool, reasonGiven: bool)
    | DoReplace(failed: Id, facts: Candidate, pay: Option<int>, n: Notice)
    | DoCancel(rid: Id, reasonGiven: bool, employer: Option<Id>, n: Notice)
    | DoAddMember(cohort: Id, cid: Id)
    | DoOutcome(cohort: Id, cid: Id, outcome: CohortOutcome)
    | DoResult(cid: Id)
    | DoRegister
    | DoPost(request: WorkRequest)
    | DoErase(cid: Id)
    | DoDeliver(row: Id, consents: seq<O.Consent>, phone: bool, reply: O.Reply, moment: int)
    | DoDefer(moment: int)
    | DoStop(cid: Id)

  function Do(db: Db, op: Op): Result<Db, Refusal> {
    match op
    case DoOffer(rid, facts, n) => Offer(db, rid, facts, n)
    case DoWriteOffer(rid, cid, n) => WriteOffer(db, rid, cid, n)
    case DoRespond(pid, accepted, n) => Respond(db, pid, accepted, n)
    case DoStart(pid, day, n) => Start(db, pid, day, n)
    case DoComplete(pid, endedOn, today) => Complete(db, pid, endedOn, today)
    case DoTerminate(pid, reasonGiven, endedOn, today) => Terminate(db, pid, reasonGiven, endedOn, today)
    case DoChase(pid, contact, today, now) => Chase(db, pid, contact, today, now)
    case DoLog(pid, day, present, reasonGiven) => LogAttendance(db, pid, day, present, reasonGiven)
    case DoReplace(failed, facts, pay, n) => Replace(db, failed, facts, pay, n)
    case DoCancel(rid, reasonGiven, employer, n) => CancelRequest(db, rid, reasonGiven, employer, n)
    case DoAddMember(cohort, cid) => AddMember(db, cohort, cid)
    case DoOutcome(cohort, cid, outcome) => RecordOutcome(db, cohort, cid, outcome)
    case DoResult(cid) => RecordResult(db, cid)
    case DoRegister => Register(db)
    case DoPost(r) => Post(db, r)
    case DoErase(cid) => Erase(db, cid)
    case DoDeliver(row, consents, phone, reply, moment) => Deliver(db, row, consents, phone, reply, moment)
    case DoDefer(moment) => Defer(db, moment)
    case DoStop(cid) => StopTo(db, cid)
  }

  /** A refused operation leaves the tables as they were. */
  function Step(db: Db, op: Op): Db {
    match Do(db, op)
    case Ok(after) => after
    case Err(_) => db
  }

  function Run(db: Db, ops: seq<Op>): Db
    decreases |ops|
  {
    if ops == [] then db else Run(Step(db, ops[0]), ops[1..])
  }

  /** The daily chase, over the first so many placements. */
  function Chased(db: Db, contacts: Id -> Option<Id>, today: int, now: int, upTo: nat): Db {
    if upTo == 0 then db
    else Step(Chased(db, contacts, today, now, upTo - 1), DoChase(upTo - 1, contacts(upTo - 1), today, now))
  }

  const Empty := Db([], {}, [], map[], map[], map[], [], map[], [], [])
}
