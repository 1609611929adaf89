/** What holds over every run of the life cycle and the dispatcher together. */
module Runs {
  import opened Base
  import opened Shifts
  import opened Matching
  import opened Lifecycle
  import opened Invariants
  import opened Steps
  import O = Outbox

  lemma {:induction false} RunKeepsInv(db: Db, ops: seq<Op>)
    requires Inv(db)
    ensures Inv(Run(db, ops))
    decreases |ops|
  {
    if ops != [] {
      StepKeepsInv(db, ops[0]);
      RunKeepsInv(Step(db, ops[0]), ops[1..]);
    }
  }

  /** A state some run from empty tables reaches. */
  ghost predicate Reachable(db: Db) {
    exists ops :: Run(Empty, ops) == db
  }

  lemma ReachableIsSound(db: Db)
    requires Reachable(db)
    ensures Inv(db)
  {
    var ops :| Run(Empty, ops) == db;
    RunKeepsInv(Empty, ops);
  }

  lemma {:induction false} RunsCompose(db: Db, first: seq<Op>, then_: seq<Op>)
    ensures Run(db, first + then_) == Run(Run(db, first), then_)
    decreases |first|
  {
    if first == [] {
      assert first + then_ == then_;
    } else {
      assert (first + then_)[0] == first[0] && (first + then_)[1..] == first[1..] + then_;
      RunsCompose(Step(db, first[0]), first[1..], then_);
    }
  }

  lemma RunOne(db: Db, op: Op)
    ensures Run(db, [op]) == Step(db, op)
  {
    assert [op][0] == op && [op][1..] == [];
  }

  lemma StepStaysReachable(db: Db, op: Op)
    requires Reachable(db)
    ensures Reachable(Step(db, op))
  {
    var ops :| Run(Empty, ops) == db;
    RunsCompose(Empty, ops, [op]);
    RunOne(db, op);
    assert Run(Empty, ops + [op]) == Step(db, op);
  }

  // ---- nobody is promised twice -----------------------------------------------------------------

  /** Whatever was offered from whatever stale list, no candidate holds two live placements on
      different requests that clash. A minute of some day is promised twice exactly when one
      piece of work slips past the other, and never between windows that stay within a day. */
  lemma NobodyIsDoubleBooked(db: Db, i: Id, j: Id)
    requires Reachable(db) && i < |db.placements| && j < |db.placements|
    requires db.placements[i].candidate == db.placements[j].candidate
    requires db.placements[i].request != db.placements[j].request
    requires Live(db.placements[i].status) && Live(db.placements[j].status)
    ensures db.placements[i].request < |db.requests| && db.placements[j].request < |db.requests|
    ensures BookedApart(db.requests[db.placements[i].request].hours, db.requests[db.placements[j].request].hours)
  {
    ReachableIsSound(db);
    var p, q := db.placements[i], db.placements[j];
    CollideBothWays(db.requests, p, q);
    assert i < j ==> !Collide(db.requests, p, q);
    assert j < i ==> !Collide(db.requests, q, p);
    ApartUnlessOneSlips(db.requests[p.request].hours, db.requests[q.request].hours);
  }

  ghost predicate BookedApart(a: Hours, b: Hours) {
    && InOrder(a) && InOrder(b) && !Clash(a, b)
    && (TwicePromised(a, b) <==> Slips(a, b) || Slips(b, a))
    && (SameDay(a) && SameDay(b) ==> !TwicePromised(a, b))
  }

  lemma ApartUnlessOneSlips(a: Hours, b: Hours)
    requires InOrder(a) && InOrder(b) && !Clash(a, b)
    ensures BookedApart(a, b)
  {
    TheGuardIsRightExactly(a, b);
    if SameDay(a) && SameDay(b) { ClashIsASharedMinute(a, b); }
  }

  // ---- the log decides ----------------------------------------------------------------------------

  /** Through upserts that flip a day either way, and through corrections: a no-show is a
      placement with days logged and none attended. */
  lemma NoShowIsWhatTheLogSays(db: Db, pid: Id)
    requires Reachable(db) && pid < |db.placements|
    ensures db.placements[pid].status == NoShow <==> Logged(db.log, pid) && !Attended(db.log, pid)
    ensures db.placements[pid].status == NoShow <==>
      (exists day :: Reported(db.log, pid, day)) && forall day :: !Came(db.log, pid, day)
  {
    ReachableIsSound(db);
    DaysAreLogged(db.log, pid);
  }

  ghost predicate Reported(log: map<LogKey, bool>, pid: Id, day: int) { (pid, day) in log }

  ghost predicate Came(log: map<LogKey, bool>, pid: Id, day: int) { (pid, day) in log && log[(pid, day)] }

  lemma DaysAreLogged(log: map<LogKey, bool>, pid: Id)
    ensures Logged(log, pid) <==> exists day :: Reported(log, pid, day)
    ensures Attended(log, pid) <==> exists day :: Came(log, pid, day)
  {
    forall k | k in log && k.0 == pid ensures Reported(log, pid, k.1) && (log[k] ==> Came(log, pid, k.1)) {
      assert k == (pid, k.1);
    }
    forall day | Reported(log, pid, day) ensures Logged(log, pid) && (Came(log, pid, day) ==> Attended(log, pid)) {
      assert (pid, day).0 == pid;
    }
  }

  /** The guarantee is put on the clock exactly when the placement is a no-show after the call. */
  lemma InvocationIsANoShow(db: Db, pid: Id, day: int, present: bool, reasonGiven: bool, after: Db)
    requires Inv(db) && LogAttendance(db, pid, day, present, reasonGiven) == Ok(after)
    ensures pid < |after.placements|
    ensures Invokes(db, pid, day, present) <==> after.placements[pid].status == NoShow
  {
    LogKeepsInv(db, pid, day, present, reasonGiven, after);
    LogOneDay(db.log, pid, day, present);
  }

  // ---- what the records say of the candidate --------------------------------------------------------

  /** Placed is having work, trained is having finished a cohort, assessed is having a result;
      the furthest of them shows, unless a decision about the person stands instead. */
  lemma StatusSaysWhatIsHeld(db: Db, c: Id)
    requires Reachable(db) && c < |db.people| && db.people[c] != Withdrawn && db.people[c] != Inactive
    ensures db.people[c] == Placed <==> AtWork(db, c)
    ensures db.people[c] == Trained <==> !AtWork(db, c) && FinishedACohort(db, c)
    ensures db.people[c] == Assessed <==> !AtWork(db, c) && !FinishedACohort(db, c) && c in db.results
    ensures db.people[c] == Registered <==> !AtWork(db, c) && !FinishedACohort(db, c) && c !in db.results
  {
    ReachableIsSound(db);
    WorkIsHeld(db, c);
    CohortsAreFinished(db, c);
  }

  ghost predicate AtWork(db: Db, c: Id) {
    exists i :: 0 <= i < |db.placements| && db.placements[i].candidate == c && db.placements[i].status in {Accepted, Active}
  }

  ghost predicate FinishedACohort(db: Db, c: Id) {
    exists cohort: Id :: (cohort, c) in db.members && db.members[(cohort, c)] == Some(CompletedCohort)
  }

  lemma WorkIsHeld(db: Db, c: Id)
    ensures HasWork(db.placements, c) <==> AtWork(db, c)
  {
  }

  lemma CohortsAreFinished(db: Db, c: Id)
    ensures HasFinishedCohort(db.members, c) <==> FinishedACohort(db, c)
  {
    if HasFinishedCohort(db.members, c) {
      var k :| k in db.members && k.1 == c && db.members[k] == Some(CompletedCohort);
      assert k == (k.0, c);
    }
    if cohort: Id :| (cohort, c) in db.members && db.members[(cohort, c)] == Some(CompletedCohort) {
      assert (cohort, c).1 == c;
    }
  }

  // ---- mail -----------------------------------------------------------------------------------------

  /** A placement that is declined, terminated or a no-show has nothing queued; a cancelled one at
      most its notice; a completed one at most the question, to the employer, whether it was
      attended. */
  lemma NothingIsSentAfterTheWork(db: Db, i: nat, pid: Id)
    requires Reachable(db) && i < |db.box| && db.box[i].placement == Some(pid) && db.box[i].status == O.Queued
    ensures pid < |db.placements|
    ensures db.placements[pid].status !in {Declined, Terminated, NoShow, Replaced}
    ensures db.placements[pid].status == Cancelled ==> db.box[i].template == O.PlacementCancelled
    ensures db.placements[pid].status == Completed ==> db.box[i].template == O.AttendanceUnconfirmed && db.box[i].to.Contact?
  {
    ReachableIsSound(db);
    assert Queues(db.placements, db.box[i]);
  }

  // ---- how a placement may change --------------------------------------------------------------------

  /** The row is the same placement, its status moved by nothing or by one allowed edge. */
  ghost predicate OneMove(a: Placement, b: Placement) {
    b == a.(status := b.status) && (a.status == b.status || Edge(a.status, b.status))
  }

  ghost predicate MovesOnly(before: Db, after: Db) {
    && |before.placements| <= |after.placements| && before.requests <= after.requests
    && (forall i :: 0 <= i < |before.placements| ==> OneMove(before.placements[i], after.placements[i]))
  }

  lemma {:induction false} TellingLeavesPlacements(d: Db, before: seq<Placement>, rid: Id, upTo: nat, n: Notice)
    requires upTo <= |before| == |d.placements|
    ensures TellCancelled(d, before, rid, upTo, n).requests == d.requests
  {
    if upTo > 0 { TellingLeavesPlacements(d, before, rid, upTo - 1, n); }
  }

  lemma CancelMovesOnly(db: Db, rid: Id, reasonGiven: bool, employer: Option<Id>, n: Notice, after: Db)
    requires CancelRequest(db, rid, reasonGiven, employer, n) == Ok(after)
    ensures MovesOnly(db, after)
  {
    var d := db.(placements := WithWaitingCancelled(db.placements, rid), cancelled := db.cancelled + {rid});
    TellingLeavesPlacements(d, db.placements, rid, |db.placements|, n);
  }

  lemma WritingMovesOnly(db: Db, pid: Id, s: Status, a: Db, after: Db)
    requires pid < |db.placements| && SetStatus(db, pid, s) == Ok(a)
    requires db.placements[pid].status == s || Edge(db.placements[pid].status, s)
    requires after.placements == a.placements && after.requests == a.requests
    ensures MovesOnly(db, after)
  {
  }

  lemma StartedKeepsTables(db: Db, pid: Id, startedOn: int, n: Notice)
    requires pid < |db.placements|
    ensures OnStarted(db, pid, startedOn, n).placements == db.placements
    ensures OnStarted(db, pid, startedOn, n).requests == db.requests
    ensures OnStarted(db, pid, startedOn, n).log == db.log
  {
  }

  lemma RespondMovesOnly(db: Db, pid: Id, accepted: bool, n: Notice, after: Db)
    requires Respond(db, pid, accepted, n) == Ok(after)
    ensures MovesOnly(db, after)
  {
    var s := if accepted then Accepted else Declined;
    WritingMovesOnly(db, pid, s, SetStatus(db, pid, s).value, after);
  }

  lemma StartMovesOnly(db: Db, pid: Id, day: int, n: Notice, after: Db)
    requires Start(db, pid, day, n) == Ok(after)
    ensures MovesOnly(db, after)
  {
    var a := SetStatus(db, pid, Active).value;
    StartedKeepsTables(Begun(a, pid, day), pid, day, n);
    WritingMovesOnly(db, pid, Active, a, after);
  }

  lemma EndsMoveOnly(db: Db, pid: Id, from: set<Status>, to: Status, endedOn: Option<int>, today: int, after: Db)
    requires End(db, pid, from, to, endedOn, today) == Ok(after) && forall s :: s in from ==> Edge(s, to)
    ensures MovesOnly(db, after)
  {
    WritingMovesOnly(db, pid, to, SetStatus(db, pid, to).value, after);
  }

  lemma LogMovesOnly(db: Db, pid: Id, day: int, present: bool, reasonGiven: bool, after: Db)
    requires LogAttendance(db, pid, day, present, reasonGiven) == Ok(after)
    ensures MovesOnly(db, after)
  {
    var logged := db.(log := db.log[(pid, day) := present]);
    if after.placements != db.placements {
      var s := if present then Active else NoShow;
      WritingMovesOnly(logged, pid, s, SetStatus(logged, pid, s).value, after);
    }
  }

  lemma WriteOfferMovesOnly(db: Db, rid: Id, cid: Id, n: Notice, after: Db)
    requires WriteOffer(db, rid, cid, n) == Ok(after)
    ensures MovesOnly(db, after)
  {
  }

  lemma CoverMovesOnly(db: Db, failed: Id, cid: Id, pay: Option<int>, n: Notice, after: Db)
    requires failed < |db.placements| && CoverSent(db, failed, cid, pay, n) == Ok(after)
    ensures MovesOnly(db, after)
  {
  }

  /** No operation rewrites a placement: only its status moves, and only along the life cycle. */
  lemma StepMovesOnly(db: Db, op: Op)
    ensures MovesOnly(db, Step(db, op))
  {
    if Do(db, op).Ok? {
      var after := Do(db, op).value;
      match op
      case DoCancel(rid, reasonGiven, employer, n) => CancelMovesOnly(db, rid, reasonGiven, employer, n, after);
      case DoOffer(rid, facts, n) => WriteOfferMovesOnly(db, rid, facts.id, n, after);
      case DoWriteOffer(rid, cid, n) => WriteOfferMovesOnly(db, rid, cid, n, after);
      case DoReplace(failed, facts, pay, n) => CoverMovesOnly(db, failed, facts.id, pay, n, after);
      case DoRespond(pid, accepted, n) => RespondMovesOnly(db, pid, accepted, n, after);
      case DoStart(pid, day, n) => StartMovesOnly(db, pid, day, n, after);
      case DoComplete(pid, endedOn, today) => EndsMoveOnly(db, pid, {Active}, Completed, endedOn, today, after);
      case DoTerminate(pid, _, endedOn, today) =>
        EndsMoveOnly(db, pid, {Accepted, Active}, Terminated, endedOn, today, after);
      case DoLog(pid, day, present, reasonGiven) => LogMovesOnly(db, pid, day, present, reasonGiven, after);
      case _ => assert after.placements == db.placements && db.requests <= after.requests;
    }
  }

  // ---- the course of a placement ------------------------------------------------------------------------

  /** The statuses one placement passes through, from now to the end of the run. */
  ghost function Course(db: Db, ops: seq<Op>, i: Id): (course: seq<Status>)
    requires i < |db.placements|
    ensures |course| == |ops| + 1
    decreases |ops|
  {
    if ops == [] then [db.placements[i].status]
    else
      StepMovesOnly(db, ops[0]);
      [db.placements[i].status] + Course(Step(db, ops[0]), ops[1..], i)
  }

  /** How far along a status is. Only arriving and not arriving stand level. */
  function Stage(s: Status): nat {
    match s
    case Offered => 0
    case Accepted => 1
    case Active => 2
    case NoShow => 2
    case _ => 3
  }

  predicate StandsOrSwings(a: Status, b: Status) { a == b || (a in {Active, NoShow} && b in {Active, NoShow}) }

  predicate Onward(a: Status, b: Status) { Stage(a) < Stage(b) || StandsOrSwings(a, b) }

  /** A path of the life cycle that never goes back to a stage it has left. */
  ghost predicate IsAPath(course: seq<Status>) {
    && (forall k :: 0 <= k < |course| - 1 ==> course[k] == course[k + 1] || Edge(course[k], course[k + 1]))
    && (forall j, k :: 0 <= j <= k < |course| ==> Onward(course[j], course[k]))
  }

  lemma OneMoveMore(first: Status, rest: seq<Status>)
    requires rest != [] && IsAPath(rest) && (first == rest[0] || Edge(first, rest[0]))
    ensures IsAPath([first] + rest)
  {
    var course := [first] + rest;
    forall j, k | 0 <= j <= k < |course| ensures Onward(course[j], course[k]) {
      if j == 0 < k { assert Onward(rest[0], rest[k - 1]); }
    }
  }

  /** Over any run the statuses of a placement form a path of the life cycle. It never goes back
      to a stage it has left, an ended placement stays as it ended, and the one thing that can
      happen more than once is to be found absent and then to have come after all. */
  lemma {:induction false} EveryCourseIsAPath(db: Db, ops: seq<Op>, i: Id)
    requires i < |db.placements|
    ensures var course := Course(db, ops, i);
      && IsAPath(course) && course[0] == db.placements[i].status
      && i < |Run(db, ops).placements| && course[|ops|] == Run(db, ops).placements[i].status
    decreases |ops|
  {
    if ops != [] {
      StepMovesOnly(db, ops[0]);
      assert OneMove(db.placements[i], Step(db, ops[0]).placements[i]);
      EveryCourseIsAPath(Step(db, ops[0]), ops[1..], i);
      OneMoveMore(db.placements[i].status, Course(Step(db, ops[0]), ops[1..], i));
    }
  }

  // ---- what is over stays over --------------------------------------------------------------------------

  /** Declined, completed, terminated and cancelled are for good. */
  predicate Over(s: Status) { s in {Declined, Completed, Terminated, Cancelled} }

  /** A placement keeps its request, its candidate, its pay and what it covers through every run,
      and once it is over its status as well. */
  lemma {:induction false} PlacementsAreNeverRewritten(db: Db, ops: seq<Op>, i: Id)
    requires i < |db.placements|
    ensures i < |Run(db, ops).placements|
    ensures var p, q := db.placements[i], Run(db, ops).placements[i];
      q == p.(status := q.status) && (Over(p.status) ==> q == p)
    decreases |ops|
  {
    if ops != [] {
      StepMovesOnly(db, ops[0]);
      PlacementsAreNeverRewritten(Step(db, ops[0]), ops[1..], i);
    }
  }

  // ---- the guarantee's record ---------------------------------------------------------------------------

  lemma {:induction false} CoverStays(db: Db, ops: seq<Op>, f: Id)
    requires Covered(db.placements, f)
    ensures Covered(Run(db, ops).placements, f)
  {
    var i :| 0 <= i < |db.placements| && db.placements[i].covers == Some(f);
    PlacementsAreNeverRewritten(db, ops, i);
    assert Run(db, ops).placements[i].covers == Some(f);
  }

  /** Once any row points at a placement as its cover, that placement is a no-show with days
      logged and none attended, whatever happens afterwards, and the attempt to correct it is
      refused: also when the cover has declined or been cancelled. */
  lemma CoveredNoShowStandsForever(db: Db, ops: seq<Op>, f: Id)
    requires Reachable(db) && Covered(db.placements, f)
    ensures var later := Run(db, ops);
      && f < |later.placements| && later.placements[f].status == NoShow
      && Logged(later.log, f) && !Attended(later.log, f)
      && (forall day, reasonGiven :: LogAttendance(later, f, day, true, reasonGiven) == Err(AlreadyCovered))
  {
    ReachableIsSound(db);
    RunKeepsInv(db, ops);
    CoverStays(db, ops, f);
    var later := Run(db, ops);
    var i :| 0 <= i < |later.placements| && later.placements[i].covers == Some(f);
    assert IsCoverOf(later.placements, i, f);
  }

  /** A present day on a no-show goes in exactly when nobody was sent as cover and the candidate
      has taken no clashing work meanwhile. */
  lemma CorrectionGoesInExactlyWhen(db: Db, pid: Id, day: int, reasonGiven: bool)
    requires pid < |db.placements| && db.placements[pid].status == NoShow
    ensures LogAttendance(db, pid, day, true, reasonGiven).Ok? <==>
      !Covered(db.placements, pid) &&
      forall i :: 0 <= i < |db.placements| && Live(db.placements[i].status)
        ==> !Collide(db.requests, db.placements[i], db.placements[pid])
  {
    var row := db.placements[pid].(status := Active);
    assert GuardRefuses(db.requests, db.placements, pid, row) <==>
      exists i :: 0 <= i < |db.placements| && Live(db.placements[i].status) && Collide(db.requests, db.placements[i], row);
    assert forall q :: Collide(db.requests, q, row) <==> Collide(db.requests, q, db.placements[pid]);
  }

  /** Nobody who has been offered work is refused by the guard when they answer, start or stop. */
  lemma TheGuardNeverStopsSomebodyWhoHoldsTheOffer(db: Db, pid: Id, s: Status)
    requires Reachable(db) && pid < |db.placements| && Live(db.placements[pid].status)
    ensures SetStatus(db, pid, s).Ok?
  {
    ReachableIsSound(db);
    GuardOnlyStopsNewcomers(db.requests, db.placements, pid, s);
  }

  // ---- chains of covers -----------------------------------------------------------------------------------

  /** The placements this one stands in for, itself first. */
  ghost function Chain(ps: seq<Placement>, i: Id): (chain: seq<Id>)
    requires Chained(ps) && i < |ps|
    ensures 0 < |chain| <= i + 1 && chain[0] == i
    ensures forall k :: 0 <= k < |chain| ==> chain[k] <= i && chain[k] < |ps|
    decreases i
  {
    if ps[i].covers.None? then [i]
    else
      assert IsCoverOf(ps, i, ps[i].covers.value);
      [i] + Chain(ps, ps[i].covers.value)
  }

  /** Chains end, each link older than the one before; all but the head are no-shows, and all of
      them share one request and one pay unit. */
  lemma {:induction false} ChainsAreNoShowsOnOneRequest(ps: seq<Placement>, i: Id)
    requires Chained(ps) && i < |ps|
    ensures var chain := Chain(ps, i);
      && (forall j, k :: 0 <= j < k < |chain| ==> chain[k] < chain[j])
      && (forall k :: 0 < k < |chain| ==> ps[chain[k]].status == NoShow)
      && (forall k :: 0 <= k < |chain| ==> ps[chain[k]].request == ps[i].request && ps[chain[k]].payUnit == ps[i].payUnit)
      && ps[chain[|chain| - 1]].covers.None?
    decreases i
  {
    if ps[i].covers.Some? {
      assert IsCoverOf(ps, i, ps[i].covers.value);
      ChainsAreNoShowsOnOneRequest(ps, ps[i].covers.value);
    }
  }

  /** Both were offered as cover of the same placement. */
  predicate RivalCovers(p: Placement, q: Placement) {
    p.covers.Some? && p.covers == q.covers
  }

  /** Different numbers below a bound are no more than the bound. */
  lemma {:induction false} FewerThanTheBound(ids: seq<Id>, bound: nat)
    requires forall k :: 0 <= k < |ids| ==> ids[k] < bound
    requires forall j, k :: 0 <= j < k < |ids| ==> ids[j] != ids[k]
    ensures |ids| <= bound
    decreases bound
  {
    if ids == [] {
      return;
    }
    assert ids[0] < bound;
    if k :| 0 <= k < |ids| && ids[k] == bound - 1 {
      FewerThanTheBound(ids[..k] + ids[k + 1..], bound - 1);
    } else {
      FewerThanTheBound(ids, bound - 1);
    }
  }

  /** Nobody is sent twice along one chain, so a chain is no longer than the pool of people, and
      of all the covers of one placement at most one is on the table. */
  lemma ChainsSendDifferentPeople(db: Db, i: Id)
    requires Reachable(db) && i < |db.placements|
    ensures Inv(db)
    ensures var chain := Chain(db.placements, i);
      && (forall j, k :: 0 <= j < k < |chain| ==> db.placements[chain[j]].candidate != db.placements[chain[k]].candidate)
      && |chain| <= |db.people|
    ensures forall j :: 0 <= j < |db.placements| && j != i && RivalCovers(db.placements[i], db.placements[j]) ==>
      !Standing(db.placements[i]) || !Standing(db.placements[j])
  {
    ReachableIsSound(db);
    ChainsAreNoShowsOnOneRequest(db.placements, i);
    var ps, chain := db.placements, Chain(db.placements, i);
    forall j, k | 0 <= j < k < |chain| ensures ps[chain[j]].candidate != ps[chain[k]].candidate {
      assert chain[k] < chain[j];
      assert ps[chain[k]].request == ps[chain[j]].request;
    }
    FewerThanTheBound(seq(|chain|, k requires 0 <= k < |chain| => ps[chain[k]].candidate), |db.people|);
  }
}
