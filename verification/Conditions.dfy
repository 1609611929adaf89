/** When each operation goes in: for every reachable state, the exact condition. */
module Conditions {
  import opened Base
  import opened Shifts
  import opened Matching
  import opened Lifecycle
  import opened Invariants
  import opened Steps
  import opened Runs
  import O = Outbox

  /** The candidate was never offered this request, and no live work of theirs clashes with it. */
  predicate FreeFor(db: Db, c: Id, rid: Id) {
    forall i :: 0 <= i < |db.placements| && db.placements[i].candidate == c ==>
      db.placements[i].request != rid && !Busy(db, db.placements[i], rid)
  }

  /** This placement is live, on another request whose hours clash with these. */
  predicate Busy(db: Db, p: Placement, rid: Id) {
    && (p.status == Offered || p.status == Accepted || p.status == Active)
    && p.request != rid && p.request < |db.requests| && rid < |db.requests|
    && Clash(db.requests[p.request].hours, db.requests[rid].hours)
  }

  predicate NobodyOnTheTable(db: Db, failed: Id) {
    forall i :: 0 <= i < |db.placements| && db.placements[i].covers == Some(failed) ==>
      db.placements[i].status == Declined || db.placements[i].status == Cancelled
  }

  /** Old enough, consenting, able to afford and bear the journey, safe to send. */
  ghost predicate HasTheRights(c: Candidate, r: WorkRequest)
    requires Sane(r)
  {
    OldEnough(c, r.hours.startsOn) && c.placementConsent && JourneyIsBearable(c, r) && SafeToSend(c, r)
  }

  predicate StatusIn(db: Db, pid: Id, from: set<Status>) {
    pid < |db.placements| && db.placements[pid].status in from
  }

  /** On these tables the person may be offered this work: known and neither withdrawn nor inactive,
      passing every test there is of person and work, and holding no live work that clashes. */
  ghost predicate MayBeOffered(db: Db, rid: Id, facts: Candidate) {
    && rid < |db.requests| && Sane(db.requests[rid])
    && facts.id < |db.people| && db.people[facts.id] != Withdrawn && db.people[facts.id] != Inactive
    && MayDoTheWork(facts.(committed := false), db.requests[rid])
    && (forall i :: 0 <= i < |db.placements| && db.placements[i].candidate == facts.id ==> !Busy(db, db.placements[i], rid))
  }

  /** Work begun before today, still going or over for a week at most, of which nothing has been
      heard for the last two days: no day of it logged since, nor since it began. */
  ghost predicate AwaitsAWord(db: Db, pid: Id, today: int) {
    && pid < |db.placements| && pid in db.started && db.started[pid] <= today - 1
    && (db.placements[pid].status == Active
        || (db.placements[pid].status == Completed && pid in db.ended && today - db.ended[pid] <= 7))
    && (forall day :: (pid, day) in db.log ==> day <= today - 2)
    && ((forall day :: (pid, day) !in db.log) ==> db.started[pid] <= today - 2)
  }

  lemma UnconfirmedAwaitsAWord(db: Db, pid: Id, today: int)
    ensures Unconfirmed(db, pid, today) <==> AwaitsAWord(db, pid, today)
  {
    if Logged(db.log, pid) {
      var key :| key in db.log && key.0 == pid;
      assert key == (pid, key.1);
    }
    forall key | key in db.log && key.0 == pid ensures key == (pid, key.1) && (pid, key.1) in db.log { }
    forall day | (pid, day) in db.log ensures (pid, day).0 == pid { }
  }

  /** The condition for each operation. No guard is named: where a guard could refuse, this says
      what it comes to in a state the operations reach. */
  ghost predicate GoesIn(db: Db, op: Op) {
    match op
    case DoOffer(rid, facts, _) => MayBeOffered(db, rid, facts) && FreeFor(db, facts.id, rid)
    case DoWriteOffer(rid, cid, _) => rid < |db.requests| && cid < |db.people| && FreeFor(db, cid, rid)
    case DoReplace(failed, facts, pay, _) =>
      && StatusIn(db, failed, {NoShow}) && db.placements[failed].request < |db.requests|
      && Sane(db.requests[db.placements[failed].request])
      && facts.id < |db.people| && db.people[facts.id] != Withdrawn && db.people[facts.id] != Inactive
      && HasTheRights(facts, db.requests[db.placements[failed].request])
      && FreeFor(db, facts.id, db.placements[failed].request) && NobodyOnTheTable(db, failed)
      && (if pay.Some? && pay.value != 0 then pay.value else db.placements[failed].payRwf) > 0
    case DoRespond(pid, _, _) => StatusIn(db, pid, {Offered})
    case DoStart(pid, _, _) => StatusIn(db, pid, {Offered, Accepted})
    case DoComplete(pid, _, _) => StatusIn(db, pid, {Active})
    case DoTerminate(pid, reasonGiven, _, _) => reasonGiven && StatusIn(db, pid, {Accepted, Active})
    case DoLog(pid, _, present, reasonGiven) =>
      && StatusIn(db, pid, {Accepted, Active, NoShow}) && (present || reasonGiven)
      && (present && db.placements[pid].status == NoShow ==> MayComeBack(db, pid))
    case DoChase(pid, _, today, _) => AwaitsAWord(db, pid, today)
    case DoCancel(rid, reasonGiven, employer, _) =>
      && reasonGiven && rid < |db.requests| && rid !in db.cancelled
      && (employer.Some? ==> db.requests[rid].employer == employer.value)
      && forall i :: 0 <= i < |db.placements| && db.placements[i].request == rid ==>
        db.placements[i].status !in {Active, Completed}
    case DoAddMember(_, cid) => cid < |db.people|
    case DoOutcome(cohort, cid, _) => (cohort, cid) in db.members
    case DoResult(cid) => cid < |db.people|
    case DoRegister => true
    case DoPost(r) => Sane(r) && InOrder(r.hours)
    case DoErase(cid) => cid < |db.people|
    case DoDeliver(row, _, _, _, moment) =>
      && row < |db.box| && db.box[row].status == O.Queued && db.box[row].due <= moment
      && (O.InQuietHours(moment) ==> db.box[row].to.Staff?)
    case DoDefer(_) => true
    case DoStop(_) => true
  }

  /** Nobody was sent instead, and the candidate has taken no work since that clashes. */
  predicate MayComeBack(db: Db, pid: Id)
    requires pid < |db.placements|
  {
    && (forall i :: 0 <= i < |db.placements| ==> db.placements[i].covers != Some(pid))
    && forall i :: 0 <= i < |db.placements| && db.placements[i].candidate == db.placements[pid].candidate ==>
      !Busy(db, db.placements[i], db.placements[pid].request)
  }

  // ---- guards, read as conditions ------------------------------------------------------------

  lemma InsertGoesInExactlyWhen(db: Db, row: Placement)
    requires row.request < |db.requests| && Live(row.status)
    ensures Insert(db, row).Ok? <==>
      FreeFor(db, row.candidate, row.request) && (row.covers.Some? ==> NobodyOnTheTable(db, row.covers.value))
  {
    var ps := db.placements;
    forall i | 0 <= i < |ps| && ps[i].candidate == row.candidate
      ensures Busy(db, ps[i], row.request) <==> Live(ps[i].status) && Collide(db.requests, ps[i], row)
    {
    }
    if !FreeFor(db, row.candidate, row.request) {
      var i :| 0 <= i < |ps| && ps[i].candidate == row.candidate
        && !(ps[i].request != row.request && !Busy(db, ps[i], row.request));
      assert ps[i].request == row.request || (Live(ps[i].status) && Collide(db.requests, ps[i], row));
    }
  }

  /** Passing the filters, run on these tables, is exactly that. */
  lemma PassingIsMayBeOffered(db: Db, rid: Id, facts: Candidate)
    ensures Passes(db, rid, facts) <==> MayBeOffered(db, rid, facts)
  {
    if rid < |db.requests| && Sane(db.requests[rid]) {
      var row, ps := OfferRow(db, rid, facts.id), db.placements;
      var busy := GuardRefuses(db.requests, ps, |ps|, row);
      forall i | 0 <= i < |ps| && ps[i].candidate == facts.id
        ensures Busy(db, ps[i], rid) <==> Live(ps[i].status) && Collide(db.requests, ps[i], row)
      {
      }
      SurvivorsAreThoseWhoMayDoTheWork(facts.(committed := busy), db.requests[rid]);
      CommitmentIsTheRest(facts, busy, db.requests[rid]);
    }
  }

  lemma CommitmentIsTheRest(facts: Candidate, busy: bool, r: WorkRequest)
    requires Sane(r)
    ensures MayDoTheWork(facts.(committed := busy), r) <==> !busy && MayDoTheWork(facts.(committed := false), r)
  {
    var a, b := facts.(committed := busy), facts.(committed := false);
    assert HasTheTime(a, r) <==> HasTheTime(b, r);
    assert HasEverySkill(a, r.requiredSkills) <==> HasEverySkill(b, r.requiredSkills);
  }

  lemma PassingMeansNotBusy(db: Db, rid: Id, facts: Candidate)
    requires Passes(db, rid, facts)
    ensures !GuardRefuses(db.requests, db.placements, |db.placements|, OfferRow(db, rid, facts.id))
  {
    assert HardExclusion in FILTERS;
  }

  lemma OfferGoesInExactlyWhen(db: Db, rid: Id, facts: Candidate, n: Notice)
    requires Inv(db)
    ensures Offer(db, rid, facts, n).Ok? <==> GoesIn(db, DoOffer(rid, facts, n))
  {
    PassingIsMayBeOffered(db, rid, facts);
    if Passes(db, rid, facts) {
      PassingMeansNotBusy(db, rid, facts);
      InsertGoesInExactlyWhen(db, OfferRow(db, rid, facts.id));
    }
  }

  lemma CoverGoesInExactlyWhen(db: Db, failed: Id, facts: Candidate, pay: Option<int>, n: Notice)
    requires Inv(db)
    ensures Replace(db, failed, facts, pay, n).Ok? <==> GoesIn(db, DoReplace(failed, facts, pay, n))
  {
    if StatusIn(db, failed, {NoShow}) {
      RightsAreNamedInOrder(facts, db.requests[db.placements[failed].request]);
      InsertGoesInExactlyWhen(db, CoverRow(db, failed, facts.id, pay));
    }
  }

  lemma LogGoesInExactlyWhen(db: Db, pid: Id, day: int, present: bool, reasonGiven: bool)
    requires Inv(db)
    ensures LogAttendance(db, pid, day, present, reasonGiven).Ok? <==> GoesIn(db, DoLog(pid, day, present, reasonGiven))
  {
    if pid < |db.placements| && db.placements[pid].status == NoShow {
      CorrectionGoesInExactlyWhen(db, pid, day, reasonGiven);
      ComingBackIsNotColliding(db, pid);
    }
  }

  lemma ComingBackIsNotColliding(db: Db, pid: Id)
    requires Inv(db) && pid < |db.placements| && db.placements[pid].status == NoShow
    ensures MayComeBack(db, pid) <==>
      !Covered(db.placements, pid) &&
      forall i :: 0 <= i < |db.placements| && Live(db.placements[i].status)
        ==> !Collide(db.requests, db.placements[i], db.placements[pid])
  {
    var ps := db.placements;
    forall i | 0 <= i < |ps| && ps[i].candidate == ps[pid].candidate
      ensures Busy(db, ps[i], ps[pid].request) <==> Live(ps[i].status) && Collide(db.requests, ps[i], ps[pid])
    {
    }
  }

  predicate IsAnswer(op: Op) { op.DoRespond? || op.DoStart? || op.DoComplete? || op.DoTerminate? }

  function Landing(op: Op): Status
    requires IsAnswer(op)
  {
    match op
    case DoRespond(_, accepted, _) => if accepted then Accepted else Declined
    case DoStart(_, _, _) => Active
    case DoComplete(_, _, _) => Completed
    case DoTerminate(_, _, _, _) => Terminated
  }

  lemma AnswersGoInExactlyWhen(db: Db, op: Op)
    requires Inv(db) && IsAnswer(op)
    ensures Do(db, op).Ok? <==> GoesIn(db, op)
  {
    if op.pid < |db.placements| && Live(db.placements[op.pid].status) {
      forall s ensures SetStatus(db, op.pid, s).Ok? { GuardOnlyStopsNewcomers(db.requests, db.placements, op.pid, s); }
    }
  }

  lemma StartLandsWhereItSays(db: Db, pid: Id, day: int, n: Notice, after: Db)
    requires Start(db, pid, day, n) == Ok(after)
    ensures after.placements == Written(db.placements, pid, Active)
  {
    StartedKeepsTables(Begun(SetStatus(db, pid, Active).value, pid, day), pid, day, n);
  }

  /** An answer, a start and an end that go in leave the placement where they say, and every other
      placement where it was. */
  lemma AnswersLandWhereTheySay(db: Db, op: Op, after: Db)
    requires IsAnswer(op) && Do(db, op) == Ok(after)
    ensures after.placements == Written(db.placements, op.pid, Landing(op))
  {
    match op
    case DoStart(pid, day, n) => StartLandsWhereItSays(db, pid, day, n, after);
    case DoRespond(_, _, _) =>
    case DoComplete(_, _, _) =>
    case DoTerminate(_, _, _, _) =>
  }

  lemma GoesInExactlyWhen(db: Db, op: Op)
    requires Inv(db)
    ensures Do(db, op).Ok? <==> GoesIn(db, op)
  {
    match op
    case DoOffer(rid, facts, n) => OfferGoesInExactlyWhen(db, rid, facts, n);
    case DoWriteOffer(rid, cid, n) =>
      if rid < |db.requests| { InsertGoesInExactlyWhen(db, OfferRow(db, rid, cid)); }
    case DoReplace(failed, facts, pay, n) => CoverGoesInExactlyWhen(db, failed, facts, pay, n);
    case DoRespond(_, _, _) => AnswersGoInExactlyWhen(db, op);
    case DoStart(_, _, _) => AnswersGoInExactlyWhen(db, op);
    case DoComplete(_, _, _) => AnswersGoInExactlyWhen(db, op);
    case DoTerminate(_, _, _, _) => AnswersGoInExactlyWhen(db, op);
    case DoLog(pid, day, present, reasonGiven) => LogGoesInExactlyWhen(db, pid, day, present, reasonGiven);
    case DoChase(pid, _, today, _) => UnconfirmedAwaitsAWord(db, pid, today);
    case _ =>
  }

  /** In every reachable state, every operation goes in exactly when its condition holds. */
  lemma EveryOperationGoesInExactlyWhen(db: Db, op: Op)
    requires Reachable(db)
    ensures Do(db, op).Ok? <==> GoesIn(db, op)
  {
    ReachableIsSound(db);
    GoesInExactlyWhen(db, op);
  }
}
