/** Everything the operations write, letter by letter: to whom, about what, by which channel, due
    when; and which of what was waiting is called off. */
module Mail {
  import opened Base
  import opened Matching
  import opened Lifecycle
  import opened Invariants
  import opened Runs
  import opened Told
  import O = Outbox

  ghost function Letter(to: O.Recipient, pid: Id, t: O.Template, channel: O.Channel, due: int): O.Message {
    O.Message(to, Some(pid), t, channel, O.Queued, 0, due, None)
  }

  /** People with a smartphone are written to on WhatsApp, others by SMS. */
  ghost function ToPerson(pid: Id, c: Id, t: O.Template, smartphone: bool, due: int): O.Message {
    Letter(O.Recipient.Candidate(c), pid, t, if smartphone then O.WhatsApp else O.Sms, due)
  }

  ghost function ToEmployer(pid: Id, contact: Option<Id>, t: O.Template, due: int): seq<O.Message> {
    if contact.None? then [] else [Letter(O.Contact(contact.value), pid, t, O.WhatsApp, due)]
  }

  ghost function OfferLetters(pid: Id, c: Id, n: Notice): seq<O.Message> {
    [ToPerson(pid, c, O.PlacementOffer, n.smartphone, n.now)] + ToEmployer(pid, n.contact, O.EmployerWorkerAssigned, n.now)
  }

  /** At a local hour of a day: Kigali is two hours ahead of UTC. */
  ghost function LocalHour(day: int, hour: int): int { (day * 24 + hour - 2) * 3_600_000_000 }

  ghost function StartLetters(pid: Id, c: Id, day: int, n: Notice): seq<O.Message> {
    (if n.now < LocalHour(day - 1, 18) then [ToPerson(pid, c, O.ShiftReminder, n.smartphone, LocalHour(day - 1, 18))] else [])
    + [ToPerson(pid, c, O.FollowUp(O.Day1), n.smartphone, LocalHour(day + 1, 9)),
       ToPerson(pid, c, O.FollowUp(O.Week1), n.smartphone, LocalHour(day + 7, 9)),
       ToPerson(pid, c, O.FollowUp(O.Day30), n.smartphone, LocalHour(day + 30, 9)),
       ToPerson(pid, c, O.FollowUp(O.Day90), n.smartphone, LocalHour(day + 90, 9))]
  }

  ghost predicate IsWaiting(ps: seq<Placement>, i: nat, rid: Id) {
    i < |ps| && ps[i].request == rid && (ps[i].status == Offered || ps[i].status == Accepted)
  }

  /** A notice to each worker still waiting, in row order. */
  ghost function Notices(ps: seq<Placement>, rid: Id, upTo: nat, n: Notice): seq<O.Message>
    requires upTo <= |ps|
  {
    if upTo == 0 then []
    else
      Notices(ps, rid, upTo - 1, n)
      + if IsWaiting(ps, upTo - 1, rid)
        then [ToPerson(upTo - 1, ps[upTo - 1].candidate, O.PlacementCancelled, n.smartphone, n.now)] else []
  }

  ghost predicate AbsenceLogged(db: Db, pid: Id) {
    exists k :: k in db.log && k.0 == pid && db.log[k] == false
  }

  /** The letters of one operation. */
  ghost function Writes(db: Db, op: Op): seq<O.Message> {
    match op
    case DoOffer(_, facts, n) => OfferLetters(|db.placements|, facts.id, n)
    case DoWriteOffer(_, cid, n) => OfferLetters(|db.placements|, cid, n)
    case DoReplace(failed, facts, _, n) =>
      OfferLetters(|db.placements|, facts.id, n)
      + if AbsenceLogged(db, failed) then ToEmployer(|db.placements|, n.contact, O.EmployerCoverSent, n.now) else []
    case DoRespond(pid, accepted, n) =>
      if accepted && n.contract && pid < |db.placements|
      then [ToPerson(pid, db.placements[pid].candidate, O.PlacementContract, n.smartphone, n.now)] else []
    case DoStart(pid, day, n) =>
      if pid < |db.placements| then StartLetters(pid, db.placements[pid].candidate, day, n) else []
    case DoCancel(rid, _, _, n) => Notices(db.placements, rid, |db.placements|, n)
    case DoChase(pid, contact, _, now) =>
      if HasMail(db.box, pid, O.AttendanceUnconfirmed) then [] else ToEmployer(pid, contact, O.AttendanceUnconfirmed, now)
    case _ => []
  }

  /** The placements it ends: what waits about them is called off. */
  ghost function Ends(db: Db, op: Op): set<Id> {
    match op
    case DoRespond(pid, accepted, _) => if accepted then {} else {pid}
    case DoComplete(pid, _, _) => {pid}
    case DoTerminate(pid, _, _, _) => {pid}
    case DoLog(pid, day, present, _) =>
      if !present && forall k :: k in db.log && k.0 == pid && db.log[k] ==> k.1 == day then {pid} else {}
    case DoCancel(rid, _, _, _) => set i: Id | i < |db.placements| && IsWaiting(db.placements, i, rid)
    case _ => {}
  }

  ghost predicate About(m: O.Message, ended: set<Id>) { m.placement.Some? && m.placement.value in ended }

  ghost function WithCalledOff(box: seq<O.Message>, ended: set<Id>): seq<O.Message> {
    seq(|box|, i requires 0 <= i < |box| =>
      if About(box[i], ended) && box[i].status == O.Queued then box[i].(status := O.CalledOff) else box[i])
  }

  lemma NothingCalledOff(box: seq<O.Message>)
    ensures WithCalledOff(box, {}) == box
  {
  }

  lemma OneCalledOff(box: seq<O.Message>, pid: Id)
    ensures O.CallOffFor(box, pid) == WithCalledOff(box, {pid})
  {
  }

  // ---- queueing what was never queued --------------------------------------------------------------

  lemma FreshIsAppended(db: Db, pid: Id, t: O.Template, smartphone: bool, due: int)
    requires pid < |db.placements| && !HasMail(db.box, pid, t)
    ensures ToCandidate(db, pid, t, smartphone, due) ==
      db.(box := db.box + [ToPerson(pid, db.placements[pid].candidate, t, smartphone, due)])
  {
  }

  lemma NewsIsAppended(db: Db, pid: Id, t: O.Template, contact: Option<Id>, due: int)
    requires !O.OncePerPlacement(t) || !HasMail(db.box, pid, t)
    ensures ToContact(db, pid, t, contact, due) == db.(box := db.box + ToEmployer(pid, contact, t, due))
  {
  }

  lemma OneMoreLetter(box: seq<O.Message>, m: O.Message, pid: Id, t: O.Template)
    requires !HasMail(box, pid, t) && (m.placement != Some(pid) || m.template != t)
    ensures !HasMail(box + [m], pid, t)
  {
  }

  lemma OfferIsWritten(db: Db, pid: Id, n: Notice)
    requires pid < |db.placements| && !HasMail(db.box, pid, O.PlacementOffer)
    ensures OnOffered(db, pid, n) == db.(box := db.box + OfferLetters(pid, db.placements[pid].candidate, n))
  {
    FreshIsAppended(db, pid, O.PlacementOffer, n.smartphone, n.now);
    var a := ToCandidate(db, pid, O.PlacementOffer, n.smartphone, n.now);
    NewsIsAppended(a, pid, O.EmployerWorkerAssigned, n.contact, n.now);
  }

  lemma NewPlacementsAreUnwritten(db: Db, row: Placement, t: O.Template)
    requires Told.Told(db)
    ensures !HasMail(db.box, |db.placements|, t)
  {
    forall i | 0 <= i < |db.box| && db.box[i].placement.Some? ensures db.box[i].placement.value < |db.placements| {
      assert Addressed(db.placements, db.box[i]);
    }
  }

  lemma OfferWrites(db: Db, rid: Id, cid: Id, n: Notice, after: Db)
    requires Told.Told(db) && WriteOffer(db, rid, cid, n) == Ok(after)
    ensures after.box == db.box + OfferLetters(|db.placements|, cid, n)
  {
    var row := OfferRow(db, rid, cid);
    NewPlacementsAreUnwritten(db, row, O.PlacementOffer);
    OfferIsWritten(Insert(db, row).value, |db.placements|, n);
  }

  lemma CoverWrites(db: Db, failed: Id, cid: Id, pay: Option<int>, n: Notice, after: Db)
    requires Told.Told(db) && failed < |db.placements| && CoverSent(db, failed, cid, pay, n) == Ok(after)
    ensures after.box == db.box + OfferLetters(|db.placements|, cid, n)
      + if AbsenceLogged(db, failed) then ToEmployer(|db.placements|, n.contact, O.EmployerCoverSent, n.now) else []
  {
    var row, pid := CoverRow(db, failed, cid, pay), |db.placements|;
    var d := Insert(db, row).value;
    NewPlacementsAreUnwritten(db, row, O.PlacementOffer);
    OfferIsWritten(d, pid, n);
    NewsIsAppended(OnOffered(d, pid, n), pid, O.EmployerCoverSent, n.contact, n.now);
  }

  // ---- a start --------------------------------------------------------------------------------------

  lemma HoursAreLocal(day: int)
    ensures O.AtKigali(day, 18 * O.HOUR) == LocalHour(day, 18) && O.AtKigali(day, 9 * O.HOUR) == LocalHour(day, 9)
  {
  }

  ghost predicate NoneOf(box: seq<O.Message>, pid: Id, kinds: set<O.Template>) {
    forall t :: t in kinds ==> !HasMail(box, pid, t)
  }

  /** One letter of a kind not yet written; the other kinds stay unwritten. */
  lemma NextLetter(db: Db, pid: Id, t: O.Template, smartphone: bool, due: int, rest: set<O.Template>)
    requires pid < |db.placements| && NoneOf(db.box, pid, rest + {t}) && t !in rest
    ensures var after := ToCandidate(db, pid, t, smartphone, due);
      && after == db.(box := db.box + [ToPerson(pid, db.placements[pid].candidate, t, smartphone, due)])
      && NoneOf(after.box, pid, rest)
  {
    FreshIsAppended(db, pid, t, smartphone, due);
    var m := ToPerson(pid, db.placements[pid].candidate, t, smartphone, due);
    forall u | u in rest ensures !HasMail(db.box + [m], pid, u) { OneMoreLetter(db.box, m, pid, u); }
  }

  lemma CheckInsAreWritten(db: Db, pid: Id, day: int, smartphone: bool)
    requires pid < |db.placements|
    requires NoneOf(db.box, pid, {O.FollowUp(O.Day1), O.FollowUp(O.Week1), O.FollowUp(O.Day30), O.FollowUp(O.Day90)})
    ensures var c := db.placements[pid].candidate;
      WithCheckIns(db, pid, day, smartphone).box == db.box +
        [ToPerson(pid, c, O.FollowUp(O.Day1), smartphone, LocalHour(day + 1, 9)),
         ToPerson(pid, c, O.FollowUp(O.Week1), smartphone, LocalHour(day + 7, 9)),
         ToPerson(pid, c, O.FollowUp(O.Day30), smartphone, LocalHour(day + 30, 9)),
         ToPerson(pid, c, O.FollowUp(O.Day90), smartphone, LocalHour(day + 90, 9))]
  {
    HoursAreLocal(day + 1);
    HoursAreLocal(day + 7);
    HoursAreLocal(day + 30);
    HoursAreLocal(day + 90);
    NextLetter(db, pid, O.FollowUp(O.Day1), smartphone, O.AtKigali(day + 1, 9 * O.HOUR),
               {O.FollowUp(O.Week1), O.FollowUp(O.Day30), O.FollowUp(O.Day90)});
    var b := ToCandidate(db, pid, O.FollowUp(O.Day1), smartphone, O.AtKigali(day + 1, 9 * O.HOUR));
    NextLetter(b, pid, O.FollowUp(O.Week1), smartphone, O.AtKigali(day + 7, 9 * O.HOUR),
               {O.FollowUp(O.Day30), O.FollowUp(O.Day90)});
    var c := ToCandidate(b, pid, O.FollowUp(O.Week1), smartphone, O.AtKigali(day + 7, 9 * O.HOUR));
    NextLetter(c, pid, O.FollowUp(O.Day30), smartphone, O.AtKigali(day + 30, 9 * O.HOUR), {O.FollowUp(O.Day90)});
    var d := ToCandidate(c, pid, O.FollowUp(O.Day30), smartphone, O.AtKigali(day + 30, 9 * O.HOUR));
    NextLetter(d, pid, O.FollowUp(O.Day90), smartphone, O.AtKigali(day + 90, 9 * O.HOUR), {});
  }

  lemma StartedWrites(b: Db, pid: Id, day: int, n: Notice)
    requires pid < |b.placements| && forall t :: OfTheStart(t) ==> !HasMail(b.box, pid, t)
    ensures OnStarted(b, pid, day, n).box == b.box + StartLetters(pid, b.placements[pid].candidate, day, n)
  {
    var checkIns := {O.FollowUp(O.Day1), O.FollowUp(O.Week1), O.FollowUp(O.Day30), O.FollowUp(O.Day90)};
    var reminderAt := O.AtKigali(day - 1, 18 * O.HOUR);
    HoursAreLocal(day - 1);
    if n.now < reminderAt {
      NextLetter(b, pid, O.ShiftReminder, n.smartphone, reminderAt, checkIns);
      CheckInsAreWritten(ToCandidate(b, pid, O.ShiftReminder, n.smartphone, reminderAt), pid, day, n.smartphone);
    } else {
      CheckInsAreWritten(b, pid, day, n.smartphone);
    }
  }

  lemma StartWrites(db: Db, pid: Id, day: int, n: Notice, after: Db)
    requires Told.Told(db) && Start(db, pid, day, n) == Ok(after)
    ensures after.box == db.box + StartLetters(pid, db.placements[pid].candidate, day, n)
  {
    assert ToldOf(db.placements[pid].status, db.box, pid);
    StartedWrites(Begun(SetStatus(db, pid, Active).value, pid, day), pid, day, n);
  }

  // ---- an answer, an end, a report, a question ---------------------------------------------------------

  lemma RespondWrites(db: Db, pid: Id, accepted: bool, n: Notice, after: Db)
    requires Told.Told(db) && Respond(db, pid, accepted, n) == Ok(after)
    ensures after.box ==
      WithCalledOff(db.box, Ends(db, DoRespond(pid, accepted, n))) + Writes(db, DoRespond(pid, accepted, n))
  {
    var b := Refresh(SetStatus(db, pid, if accepted then Accepted else Declined).value, db.placements[pid].candidate);
    NothingCalledOff(db.box);
    OneCalledOff(db.box, pid);
    assert ToldOf(db.placements[pid].status, db.box, pid);
    if accepted && n.contract { FreshIsAppended(b, pid, O.PlacementContract, n.smartphone, n.now); }
  }

  lemma EndWrites(db: Db, pid: Id, from: set<Status>, to: Status, endedOn: Option<int>, today: int, after: Db)
    requires End(db, pid, from, to, endedOn, today) == Ok(after)
    ensures after.box == WithCalledOff(db.box, {pid})
  {
    OneCalledOff(db.box, pid);
  }

  lemma LogWrites(db: Db, pid: Id, day: int, present: bool, reasonGiven: bool, after: Db)
    requires LogAttendance(db, pid, day, present, reasonGiven) == Ok(after)
    ensures after.box == WithCalledOff(db.box, Ends(db, DoLog(pid, day, present, reasonGiven)))
  {
    NothingCalledOff(db.box);
    OneCalledOff(db.box, pid);
    NeverAttended(db, pid, day);
    LogCallsOff(db, pid, day, present, reasonGiven, after);
  }

  lemma LogCallsOff(db: Db, pid: Id, day: int, present: bool, reasonGiven: bool, after: Db)
    requires LogAttendance(db, pid, day, present, reasonGiven) == Ok(after)
    ensures after.box == if Invokes(db, pid, day, present) then O.CallOffFor(db.box, pid) else db.box
  {
  }

  lemma NeverAttended(db: Db, pid: Id, day: int)
    ensures Attended(db.log[(pid, day) := false], pid) <==> !(forall k :: k in db.log && k.0 == pid && db.log[k] ==> k.1 == day)
  {
    var log := db.log[(pid, day) := false];
    forall k | k in db.log && k.0 == pid && db.log[k] && k.1 != day ensures k in log && log[k] { }
    forall k | k in log && k.0 == pid && log[k] ensures k in db.log && db.log[k] && k.1 != day { }
  }

  lemma ChaseWrites(db: Db, pid: Id, contact: Option<Id>, today: int, now: int, after: Db)
    requires Chase(db, pid, contact, today, now) == Ok(after)
    ensures after.box == db.box + Writes(db, DoChase(pid, contact, today, now))
  {
    if HasMail(db.box, pid, O.AttendanceUnconfirmed) {
      assert after.box == db.box;
    } else {
      NewsIsAppended(db, pid, O.AttendanceUnconfirmed, contact, now);
    }
  }

  // ---- a withdrawal ----------------------------------------------------------------------------------------

  ghost function WaitingUpTo(ps: seq<Placement>, rid: Id, upTo: nat): set<Id> {
    set i: Id | i < upTo && IsWaiting(ps, i, rid)
  }

  lemma NextCalledOff(box: seq<O.Message>, ended: set<Id>, more: seq<O.Message>, i: Id)
    requires forall m :: m in more ==> m.placement != Some(i)
    ensures O.CallOffFor(WithCalledOff(box, ended) + more, i) == WithCalledOff(box, ended + {i}) + more
  {
  }

  lemma {:induction false} NoticesAreOfEarlierRows(ps: seq<Placement>, rid: Id, upTo: nat, n: Notice)
    requires upTo <= |ps|
    ensures forall m :: m in Notices(ps, rid, upTo, n) ==>
      m.placement.Some? && m.placement.value < upTo && m.template == O.PlacementCancelled
  {
    if upTo > 0 { NoticesAreOfEarlierRows(ps, rid, upTo - 1, n); }
  }

  lemma NoNoticeYet(box: seq<O.Message>, ended: set<Id>, more: seq<O.Message>, i: Id)
    requires !HasMail(box, i, O.PlacementCancelled) && forall m :: m in more ==> m.placement != Some(i)
    ensures !HasMail(O.CallOffFor(WithCalledOff(box, ended) + more, i), i, O.PlacementCancelled)
  {
    var now := O.CallOffFor(WithCalledOff(box, ended) + more, i);
    forall k | |box| <= k < |now| ensures now[k].placement != Some(i) { assert more[k - |box|] in more; }
  }

  lemma {:induction false} TellingWrites(d: Db, before: seq<Placement>, rid: Id, upTo: nat, n: Notice)
    requires upTo <= |before| == |d.placements|
    requires forall i :: 0 <= i < |before| ==> d.placements[i].candidate == before[i].candidate
    requires forall i: Id :: IsWaiting(before, i, rid) ==> !HasMail(d.box, i, O.PlacementCancelled)
    ensures TellCancelled(d, before, rid, upTo, n).box ==
      WithCalledOff(d.box, WaitingUpTo(before, rid, upTo)) + Notices(before, rid, upTo, n)
    decreases upTo
  {
    if upTo == 0 {
      assert WaitingUpTo(before, rid, 0) == {};
      NothingCalledOff(d.box);
    } else {
      var i := upTo - 1;
      TellingWrites(d, before, rid, i, n);
      assert WaitingUpTo(before, rid, upTo) == WaitingUpTo(before, rid, i) + if IsWaiting(before, i, rid) then {i} else {};
      if Waiting(before[i], rid) {
        var e := TellCancelled(d, before, rid, i, n);
        NoticesAreOfEarlierRows(before, rid, i, n);
        NextCalledOff(d.box, WaitingUpTo(before, rid, i), Notices(before, rid, i, n), i);
        NoNoticeYet(d.box, WaitingUpTo(before, rid, i), Notices(before, rid, i, n), i);
        FreshIsAppended(OnEnded(e, i), i, O.PlacementCancelled, n.smartphone, n.now);
      }
    }
  }

  lemma CancelWrites(db: Db, rid: Id, reasonGiven: bool, employer: Option<Id>, n: Notice, after: Db)
    requires Told.Told(db) && CancelRequest(db, rid, reasonGiven, employer, n) == Ok(after)
    ensures var op := DoCancel(rid, reasonGiven, employer, n);
      after.box == WithCalledOff(db.box, Ends(db, op)) + Writes(db, op)
  {
    var d := db.(placements := WithWaitingCancelled(db.placements, rid), cancelled := db.cancelled + {rid});
    forall i: Id | IsWaiting(db.placements, i, rid) ensures !HasMail(db.box, i, O.PlacementCancelled) {
      assert ToldOf(db.placements[i].status, db.box, i);
    }
    TellingWrites(d, db.placements, rid, |db.placements|, n);
    assert WaitingUpTo(db.placements, rid, |db.placements|) == Ends(db, DoCancel(rid, reasonGiven, employer, n));
  }

  // ---- every operation ----------------------------------------------------------------------------------------

  predicate OnlySends(op: Op) { op.DoDeliver? || op.DoDefer? || op.DoStop? }

  lemma NewWorkWrites(db: Db, op: Op, after: Db)
    requires Told.Told(db) && Do(db, op) == Ok(after) && (op.DoOffer? || op.DoWriteOffer? || op.DoReplace?)
    ensures after.box == db.box + Writes(db, op)
  {
    match op
    case DoOffer(rid, facts, n) => OfferWrites(db, rid, facts.id, n, after);
    case DoWriteOffer(rid, cid, n) => OfferWrites(db, rid, cid, n, after);
    case DoReplace(failed, facts, pay, n) => CoverWrites(db, failed, facts.id, pay, n, after);
  }

  /** The outbox after an operation is the outbox before it, with what waited about the placements it
      ends called off, and its own letters behind. In every reachable state, for every operation
      but the sending of mail itself. */
  lemma EveryOperationWritesItsLetters(db: Db, op: Op, after: Db)
    requires Reachable(db) && Do(db, op) == Ok(after) && !OnlySends(op)
    ensures after.box == WithCalledOff(db.box, Ends(db, op)) + Writes(db, op)
  {
    ReachableIsTold(db);
    NothingCalledOff(db.box);
    match op
    case DoOffer(_, _, _) => NewWorkWrites(db, op, after);
    case DoWriteOffer(_, _, _) => NewWorkWrites(db, op, after);
    case DoReplace(_, _, _, _) => NewWorkWrites(db, op, after);
    case DoRespond(pid, accepted, n) => RespondWrites(db, pid, accepted, n, after);
    case DoStart(pid, day, n) => StartWrites(db, pid, day, n, after);
    case DoComplete(pid, endedOn, today) => EndWrites(db, pid, {Active}, Completed, endedOn, today, after);
    case DoTerminate(pid, _, endedOn, today) => EndWrites(db, pid, {Accepted, Active}, Terminated, endedOn, today, after);
    case DoLog(pid, day, present, reasonGiven) => LogWrites(db, pid, day, present, reasonGiven, after);
    case DoCancel(rid, reasonGiven, employer, n) => CancelWrites(db, rid, reasonGiven, employer, n, after);
    case DoChase(pid, contact, today, now) => ChaseWrites(db, pid, contact, today, now, after);
    case _ =>
  }

  /** One row tried: suppressed without a phone or the consent it needs, else sent under the
      provider's reference, else on its way to SMS, to failing, or to a later try. */
  ghost predicate TriedOnce(before: O.Message, after: O.Message, consents: seq<O.Consent>, phone: bool, reply: O.Reply) {
    var may := phone && (O.RequiresConsent(before.template) && before.to.Candidate? ==>
                           exists k: nat :: O.LastWord(consents, before.to.id, k) && consents[k].granted);
    && (after.status == O.Suppressed <==> !may)
    && (after.status == O.Sent <==> may && reply.ok)
    && (after.status == O.Sent ==> after == before.(status := O.Sent, attempts := before.attempts + 1, ref := reply.ref))
    && (after.status in {O.Queued, O.Failed} ==>
          after.ref == before.ref && (O.Became(before, after, O.FailedTry) || O.Became(before, after, O.FellBack)))
    && after.to == before.to && after.placement == before.placement && after.template == before.template
  }

  /** Sending mail moves nothing else: an attempt its one row, a deferral what may not go out at this
      hour, a withdrawal of consent what waits for that person. */
  lemma SendingMovesOnlyMail(db: Db, op: Op, after: Db)
    requires Inv(db) && Do(db, op) == Ok(after) && OnlySends(op)
    ensures after == db.(box := after.box) && |after.box| == |db.box|
    ensures forall i :: 0 <= i < |db.box| && after.box[i] != db.box[i] ==> db.box[i].status == O.Queued
    ensures op.DoDeliver? ==>
      && op.row < |db.box| && (forall i :: 0 <= i < |db.box| && i != op.row ==> after.box[i] == db.box[i])
      && TriedOnce(db.box[op.row], after.box[op.row], op.consents, op.phone, op.reply)
    ensures op.DoDefer? ==> forall i :: 0 <= i < |db.box| ==>
      var later := after.box[i].due;
      after.box[i] == db.box[i].(due := later) && (later != db.box[i].due ==> later > op.moment && !db.box[i].to.Staff?)
    ensures op.DoStop? ==> forall i :: 0 <= i < |db.box| ==>
      after.box[i] ==
        if db.box[i].to == O.Recipient.Candidate(op.cid) && db.box[i].status == O.Queued
        then db.box[i].(status := O.CalledOff) else db.box[i]
  {
    match op
    case DoDeliver(row, consents, phone, reply, moment) => AttemptTriesOnce(db.box[row], consents, phone, reply, moment);
    case DoDefer(moment) =>
      forall i: nat | i < |db.box| ensures after.box[i] == db.box[i].(due := after.box[i].due) {
        O.DeferralOnlyPostpones(db.box, moment, i);
      }
      forall i: nat | i < |db.box| && after.box[i].due != db.box[i].due
        ensures after.box[i].due > moment && !db.box[i].to.Staff? && db.box[i].status == O.Queued
      {
        O.DeferralOnlyPostpones(db.box, moment, i);
      }
    case DoStop(_) =>
  }

  lemma AttemptTriesOnce(m: O.Message, consents: seq<O.Consent>, phone: bool, reply: O.Reply, moment: int)
    requires m.status == O.Queued
    ensures TriedOnce(m, O.DispatchOne(m, consents, phone, reply, moment).0, consents, phone, reply)
  {
    if m.to.Candidate? { O.ConsentIsTheLastWord(consents, m.to.id); }
  }
}
