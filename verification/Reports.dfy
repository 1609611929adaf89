/** What the tables remember is what was last reported: of attendance, of cohorts, of assessments
    and of people erased. */
module Reports {
  import opened Base
  import opened Matching
  import opened Lifecycle
  import opened Invariants
  import opened Runs
  import O = Outbox

  // ---- who writes where ------------------------------------------------------------------------

  lemma {:induction false} TellingLeavesRecords(d: Db, before: seq<Placement>, rid: Id, upTo: nat, n: Notice)
    requires upTo <= |before| == |d.placements|
    ensures var e := TellCancelled(d, before, rid, upTo, n);
      e.log == d.log && e.members == d.members && e.results == d.results && SameDecisions(d.people, e.people)
    decreases upTo
  {
    if upTo > 0 { TellingLeavesRecords(d, before, rid, upTo - 1, n); }
  }

  /** Nobody is decided about who was not, and no decision changes. */
  ghost predicate SameDecisions(before: seq<PersonStatus>, after: seq<PersonStatus>) {
    && |after| == |before|
    && (forall c :: 0 <= c < |before| ==>
          Decided(before[c]) == Decided(after[c]) && (Decided(before[c]) ==> after[c] == before[c]))
  }

  /** The other tables, which an operation on placements leaves alone. */
  ghost predicate LeavesRecords(db: Db, after: Db) {
    after.members == db.members && after.results == db.results && SameDecisions(db.people, after.people)
  }

  lemma StartLeavesRecords(db: Db, pid: Id, day: int, n: Notice, after: Db)
    requires Start(db, pid, day, n) == Ok(after)
    ensures after.log == db.log && LeavesRecords(db, after)
  {
    var b := Begun(SetStatus(db, pid, Active).value, pid, day);
    StartedLeavesRecords(b, pid, day, n);
  }

  lemma StartedLeavesRecords(b: Db, pid: Id, day: int, n: Notice)
    requires pid < |b.placements|
    ensures OnStarted(b, pid, day, n) == b.(box := OnStarted(b, pid, day, n).box)
  {
  }

  lemma CancelLeavesRecords(db: Db, rid: Id, reasonGiven: bool, employer: Option<Id>, n: Notice, after: Db)
    requires CancelRequest(db, rid, reasonGiven, employer, n) == Ok(after)
    ensures after.log == db.log && LeavesRecords(db, after)
  {
    var d := db.(placements := WithWaitingCancelled(db.placements, rid), cancelled := db.cancelled + {rid});
    TellingLeavesRecords(d, db.placements, rid, |db.placements|, n);
  }

  lemma LogWritesItsDay(db: Db, pid: Id, day: int, present: bool, reasonGiven: bool, after: Db)
    requires LogAttendance(db, pid, day, present, reasonGiven) == Ok(after)
    ensures after.log == db.log[(pid, day) := present] && LeavesRecords(db, after)
  {
  }

  lemma CoverLeavesRecords(db: Db, failed: Id, cid: Id, pay: Option<int>, n: Notice, after: Db)
    requires failed < |db.placements| && CoverSent(db, failed, cid, pay, n) == Ok(after)
    ensures after.log == db.log && LeavesRecords(db, after)
  {
  }

  lemma OfferLeavesRecords(db: Db, rid: Id, cid: Id, n: Notice, after: Db)
    requires WriteOffer(db, rid, cid, n) == Ok(after)
    ensures after.log == db.log && LeavesRecords(db, after)
  {
  }

  lemma EndLeavesRecords(db: Db, pid: Id, from: set<Status>, to: Status, endedOn: Option<int>, today: int, after: Db)
    requires End(db, pid, from, to, endedOn, today) == Ok(after)
    ensures after.log == db.log && LeavesRecords(db, after)
  {
  }

  lemma RespondLeavesRecords(db: Db, pid: Id, accepted: bool, n: Notice, after: Db)
    requires Respond(db, pid, accepted, n) == Ok(after)
    ensures after.log == db.log && LeavesRecords(db, after)
  {
  }

  /** An operation on placements. */
  predicate OnPlacements(op: Op) {
    || op.DoOffer? || op.DoWriteOffer? || op.DoReplace? || op.DoRespond? || op.DoStart? || op.DoComplete?
    || op.DoTerminate? || op.DoLog? || op.DoCancel? || op.DoChase?
  }

  lemma PlacementsLeaveRecords(db: Db, op: Op, after: Db)
    requires OnPlacements(op) && Do(db, op) == Ok(after)
    ensures LeavesRecords(db, after)
    ensures after.log == if op.DoLog? then db.log[(op.pid, op.day) := op.present] else db.log
  {
    match op
    case DoOffer(rid, facts, n) => OfferLeavesRecords(db, rid, facts.id, n, after);
    case DoWriteOffer(rid, cid, n) => OfferLeavesRecords(db, rid, cid, n, after);
    case DoReplace(failed, facts, pay, n) => CoverLeavesRecords(db, failed, facts.id, pay, n, after);
    case DoRespond(pid, accepted, n) => RespondLeavesRecords(db, pid, accepted, n, after);
    case DoStart(pid, day, n) => StartLeavesRecords(db, pid, day, n, after);
    case DoComplete(pid, endedOn, today) => EndLeavesRecords(db, pid, {Active}, Completed, endedOn, today, after);
    case DoTerminate(pid, _, endedOn, today) =>
      EndLeavesRecords(db, pid, {Accepted, Active}, Terminated, endedOn, today, after);
    case DoLog(pid, day, present, reasonGiven) => LogWritesItsDay(db, pid, day, present, reasonGiven, after);
    case DoCancel(rid, reasonGiven, employer, n) => CancelLeavesRecords(db, rid, reasonGiven, employer, n, after);
    case DoChase(_, _, _, _) =>
  }

  /** The log after a step that goes in: a report sets its own day to what was said, whatever the
      placement's status, and nothing else touches it. */
  lemma ADayReportedIsTheDayRecorded(db: Db, op: Op, after: Db)
    requires Do(db, op) == Ok(after)
    ensures after.log == if op.DoLog? then db.log[(op.pid, op.day) := op.present] else db.log
  {
    if OnPlacements(op) { PlacementsLeaveRecords(db, op, after); }
  }

  /** The rolls after a step that goes in. */
  lemma TheRollsRecordWhatWasReported(db: Db, op: Op, after: Db)
    requires Do(db, op) == Ok(after)
    ensures op.DoAddMember? ==>
      after.members == if (op.cohort, op.cid) in db.members then db.members else db.members[(op.cohort, op.cid) := None]
    ensures op.DoOutcome? ==> after.members == db.members[(op.cohort, op.cid) := Some(op.outcome)]
    ensures !op.DoAddMember? && !op.DoOutcome? ==> after.members == db.members
    ensures after.results == if op.DoResult? then db.results + [op.cid] else db.results
    ensures op.DoErase? ==> op.cid < |after.people| && after.people[op.cid] == Withdrawn
    ensures DecisionsStand(db.people, after.people)
  {
    if OnPlacements(op) { PlacementsLeaveRecords(db, op, after); }
  }

  /** The day recorded as the last: the one given, or today, but never before the first, or today
      where there is none. */
  ghost predicate IsEndOf(db: Db, op: Op, day: int)
    requires op.DoComplete? || op.DoTerminate?
  {
    var said := if op.endedOn.Some? then op.endedOn.value else op.today;
    var first := if op.pid in db.started then db.started[op.pid] else op.today;
    day >= said && day >= first && (day == said || day == first)
  }

  ghost predicate OnlyDatesAsGiven(db: Db, op: Op, after: Db) {
    && after.started == (if op.DoStart? then db.started[op.pid := op.day] else db.started)
    && after.cancelled == (if op.DoCancel? then db.cancelled + {op.rid} else db.cancelled)
    && after.requests == (if op.DoPost? then db.requests + [op.request] else db.requests)
    && (if op.DoComplete? || op.DoTerminate?
        then
          && op.pid in after.ended && after.ended == db.ended[op.pid := after.ended[op.pid]]
          && IsEndOf(db, op, after.ended[op.pid])
        else after.ended == db.ended)
  }

  lemma {:induction false} TellingLeavesDates(d: Db, before: seq<Placement>, rid: Id, upTo: nat, n: Notice)
    requires upTo <= |before| == |d.placements|
    ensures var e := TellCancelled(d, before, rid, upTo, n);
      e.started == d.started && e.ended == d.ended && e.cancelled == d.cancelled && e.requests == d.requests
    decreases upTo
  {
    if upTo > 0 { TellingLeavesDates(d, before, rid, upTo - 1, n); }
  }

  lemma StartDates(db: Db, pid: Id, day: int, n: Notice, after: Db)
    requires Start(db, pid, day, n) == Ok(after)
    ensures OnlyDatesAsGiven(db, DoStart(pid, day, n), after)
  {
    StartedLeavesRecords(Begun(SetStatus(db, pid, Active).value, pid, day), pid, day, n);
  }

  lemma CancelDates(db: Db, op: Op, after: Db)
    requires op.DoCancel? && Do(db, op) == Ok(after)
    ensures OnlyDatesAsGiven(db, op, after)
  {
    var d := db.(placements := WithWaitingCancelled(db.placements, op.rid), cancelled := db.cancelled + {op.rid});
    TellingLeavesDates(d, db.placements, op.rid, |db.placements|, op.n);
  }

  lemma EndDates(db: Db, op: Op, after: Db)
    requires (op.DoComplete? || op.DoTerminate?) && Do(db, op) == Ok(after)
    ensures OnlyDatesAsGiven(db, op, after)
  {
  }

  ghost predicate SameDates(db: Db, after: Db) {
    after.started == db.started && after.ended == db.ended && after.cancelled == db.cancelled && after.requests == db.requests
  }

  lemma LogKeepsDates(db: Db, pid: Id, day: int, present: bool, reasonGiven: bool, after: Db)
    requires LogAttendance(db, pid, day, present, reasonGiven) == Ok(after)
    ensures SameDates(db, after)
  {
  }

  lemma OfferKeepsDates(db: Db, rid: Id, cid: Id, n: Notice, after: Db)
    requires WriteOffer(db, rid, cid, n) == Ok(after)
    ensures SameDates(db, after)
  {
  }

  lemma CoverKeepsDates(db: Db, failed: Id, cid: Id, pay: Option<int>, n: Notice, after: Db)
    requires failed < |db.placements| && CoverSent(db, failed, cid, pay, n) == Ok(after)
    ensures SameDates(db, after)
  {
  }

  lemma RespondKeepsDates(db: Db, pid: Id, accepted: bool, n: Notice, after: Db)
    requires Respond(db, pid, accepted, n) == Ok(after)
    ensures SameDates(db, after)
  {
  }

  predicate KeepsDates(op: Op) {
    !op.DoStart? && !op.DoCancel? && !op.DoComplete? && !op.DoTerminate? && !op.DoPost?
  }

  lemma DatesAreKept(db: Db, op: Op, after: Db)
    requires Do(db, op) == Ok(after) && KeepsDates(op)
    ensures SameDates(db, after)
  {
    match op
    case DoLog(pid, day, present, reasonGiven) => LogKeepsDates(db, pid, day, present, reasonGiven, after);
    case DoOffer(rid, facts, n) => OfferKeepsDates(db, rid, facts.id, n, after);
    case DoWriteOffer(rid, cid, n) => OfferKeepsDates(db, rid, cid, n, after);
    case DoReplace(failed, facts, pay, n) => CoverKeepsDates(db, failed, facts.id, pay, n, after);
    case DoRespond(pid, accepted, n) => RespondKeepsDates(db, pid, accepted, n, after);
    case _ =>
  }

  /** The dates after a step that goes in: a start records its day, an end the day it comes to, and
      nothing else moves a date, withdraws a request or posts one. */
  lemma DatesAreRecordedAsGiven(db: Db, op: Op, after: Db)
    requires Do(db, op) == Ok(after)
    ensures OnlyDatesAsGiven(db, op, after)
  {
    if KeepsDates(op) {
      DatesAreKept(db, op, after);
    } else {
      match op
      case DoStart(pid, day, n) => StartDates(db, pid, day, n, after);
      case DoCancel(_, _, _, _) => CancelDates(db, op, after);
      case DoComplete(_, _, _) => EndDates(db, op, after);
      case DoTerminate(_, _, _, _) => EndDates(db, op, after);
      case DoPost(_) =>
    }
  }

  /** Somebody withdrawn stays withdrawn. */
  ghost predicate DecisionsStand(before: seq<PersonStatus>, after: seq<PersonStatus>) {
    |before| <= |after| && forall c :: 0 <= c < |before| && before[c] == Withdrawn ==> after[c] == Withdrawn
  }

  // ---- over every run ------------------------------------------------------------------------------

  /** The k-th operation of the run goes in. */
  ghost predicate WentIn(ops: seq<Op>, k: nat) {
    k < |ops| && Do(Run(Empty, ops[..k]), ops[k]).Ok?
  }

  lemma LastStepFrom(db: Db, ops: seq<Op>)
    requires ops != []
    ensures Run(db, ops) == Step(Run(db, ops[..|ops| - 1]), ops[|ops| - 1])
  {
    var front, last := ops[..|ops| - 1], ops[|ops| - 1];
    assert ops == front + [last];
    RunsCompose(db, front, [last]);
    RunOne(Run(db, front), last);
  }

  lemma LastStep(ops: seq<Op>)
    requires ops != []
    ensures Run(Empty, ops) == Step(Run(Empty, ops[..|ops| - 1]), ops[|ops| - 1])
  {
    LastStepFrom(Empty, ops);
  }

  lemma WentInEarlier(ops: seq<Op>, k: nat)
    requires k < |ops| - 1
    ensures WentIn(ops, k) <==> WentIn(ops[..|ops| - 1], k)
  {
    assert ops[..|ops| - 1][..k] == ops[..k];
  }

  /** The k-th operation reports this day of this placement, and goes in. */
  ghost predicate Says(ops: seq<Op>, k: nat, pid: Id, day: int) {
    WentIn(ops, k) && ops[k].DoLog? && ops[k].pid == pid && ops[k].day == day
  }

  /** Which operations of the run do. */
  ghost function Sayings(ops: seq<Op>, pid: Id, day: int): set<nat> {
    set k: nat | k < |ops| && Says(ops, k, pid, day)
  }

  ghost predicate IsLast(said: set<nat>, k: nat) { k in said && forall j :: j in said ==> j <= k }

  ghost predicate SaysLast(ops: seq<Op>, k: nat, pid: Id, day: int) { IsLast(Sayings(ops, pid, day), k) }

  /** What the log holds of one day of one placement, told by the reports. */
  ghost predicate TellsOf(ops: seq<Op>, log: map<LogKey, bool>, pid: Id, day: int) {
    && ((pid, day) in log <==> exists k: nat :: SaysLast(ops, k, pid, day))
    && ((pid, day) in log <==> Sayings(ops, pid, day) != {})
    && (forall k: nat :: SaysLast(ops, k, pid, day) ==> k < |ops| && ops[k].DoLog? && log[(pid, day)] == ops[k].present)
  }

  lemma SaidNow(ops: seq<Op>, log: map<LogKey, bool>, pid: Id, day: int)
    requires ops != [] && Says(ops, |ops| - 1, pid, day)
    requires (pid, day) in log && log[(pid, day)] == ops[|ops| - 1].present
    ensures TellsOf(ops, log, pid, day)
  {
    assert SaysLast(ops, |ops| - 1, pid, day);
  }

  lemma SaidEarlier(ops: seq<Op>, pid: Id, day: int)
    requires ops != [] && !Says(ops, |ops| - 1, pid, day)
    ensures Sayings(ops, pid, day) == Sayings(ops[..|ops| - 1], pid, day)
  {
    forall k: nat | k < |ops| - 1 ensures Says(ops, k, pid, day) <==> Says(ops[..|ops| - 1], k, pid, day) {
      WentInEarlier(ops, k);
    }
  }

  lemma SaidBefore(ops: seq<Op>, before: map<LogKey, bool>, log: map<LogKey, bool>, pid: Id, day: int)
    requires ops != [] && Sayings(ops, pid, day) == Sayings(ops[..|ops| - 1], pid, day)
    requires TellsOf(ops[..|ops| - 1], before, pid, day)
    requires (pid, day) in log <==> (pid, day) in before
    requires (pid, day) in log ==> log[(pid, day)] == before[(pid, day)]
    ensures TellsOf(ops, log, pid, day)
  {
    var front := ops[..|ops| - 1];
    forall k: nat ensures SaysLast(ops, k, pid, day) <==> SaysLast(front, k, pid, day) { }
    forall k: nat | SaysLast(ops, k, pid, day) ensures k < |ops| && ops[k].DoLog? && log[(pid, day)] == ops[k].present {
      assert SaysLast(front, k, pid, day) && front[k] == ops[k];
    }
  }

  /** Over every run: a day is in the log exactly when some report of it went in, and what the log
      holds is what the last of them said. */
  lemma {:induction false} TheLogHoldsWhatWasSaidLast(ops: seq<Op>, pid: Id, day: int)
    ensures TellsOf(ops, Run(Empty, ops).log, pid, day)
    decreases |ops|
  {
    if ops != [] {
      var front, last := ops[..|ops| - 1], ops[|ops| - 1];
      TheLogHoldsWhatWasSaidLast(front, pid, day);
      LastStep(ops);
      StepRecordsTheDay(Run(Empty, front), last);
      if Says(ops, |ops| - 1, pid, day) {
        SaidNow(ops, Run(Empty, ops).log, pid, day);
      } else {
        SaidEarlier(ops, pid, day);
        SaidBefore(ops, Run(Empty, front).log, Run(Empty, ops).log, pid, day);
      }
    }
  }

  lemma StepRecordsTheDay(db: Db, op: Op)
    ensures Step(db, op).log == if op.DoLog? && Do(db, op).Ok? then db.log[(op.pid, op.day) := op.present] else db.log
  {
    if Do(db, op).Ok? { ADayReportedIsTheDayRecorded(db, op, Do(db, op).value); }
  }

  lemma LoggedIsReported(ops: seq<Op>, log: map<LogKey, bool>, pid: Id)
    requires forall day :: TellsOf(ops, log, pid, day)
    ensures Logged(log, pid) <==> exists k: nat, day :: SaysLast(ops, k, pid, day)
  {
    if Logged(log, pid) {
      var key :| key in log && key.0 == pid;
      assert TellsOf(ops, log, pid, key.1) && (pid, key.1) in log;
    }
    if k: nat, day :| SaysLast(ops, k, pid, day) { assert TellsOf(ops, log, pid, day) && (pid, day).0 == pid; }
  }

  lemma AttendedIsReportedLast(ops: seq<Op>, log: map<LogKey, bool>, pid: Id)
    requires forall day :: TellsOf(ops, log, pid, day)
    ensures Attended(log, pid) <==>
      exists k: nat, day :: SaysLast(ops, k, pid, day) && k < |ops| && ops[k].DoLog? && ops[k].present
  {
    if Attended(log, pid) {
      var key :| key in log && key.0 == pid && log[key];
      assert TellsOf(ops, log, pid, key.1) && (pid, key.1) in log;
      var k: nat :| SaysLast(ops, k, pid, key.1);
      assert ops[k].present;
    }
    if k: nat, day :| SaysLast(ops, k, pid, day) && k < |ops| && ops[k].DoLog? && ops[k].present {
      assert TellsOf(ops, log, pid, day) && (pid, day).0 == pid;
    }
  }

  /** Over every run: a placement is a no-show exactly when its attendance was reported, and the
      last report of every day that was is an absence. */
  lemma ANoShowIsReportedAbsentThroughout(ops: seq<Op>, pid: Id)
    requires pid < |Run(Empty, ops).placements|
    ensures Run(Empty, ops).placements[pid].status == NoShow <==>
      && (exists k: nat, day :: SaysLast(ops, k, pid, day))
      && (forall k: nat, day :: SaysLast(ops, k, pid, day) ==> k < |ops| && ops[k].DoLog? && !ops[k].present)
  {
    var db := Run(Empty, ops);
    forall day ensures TellsOf(ops, db.log, pid, day) { TheLogHoldsWhatWasSaidLast(ops, pid, day); }
    NoShowIsWhatTheLogSays(db, pid);
    LoggedIsReported(ops, db.log, pid);
    AttendedIsReportedLast(ops, db.log, pid);
  }

  /** The k-th operation records how it went for this person in this cohort, and goes in. */
  ghost predicate Grades(ops: seq<Op>, k: nat, cohort: Id, cid: Id) {
    WentIn(ops, k) && ops[k].DoOutcome? && ops[k].cohort == cohort && ops[k].cid == cid
  }

  ghost function Gradings(ops: seq<Op>, cohort: Id, cid: Id): set<nat> {
    set k: nat | k < |ops| && Grades(ops, k, cohort, cid)
  }

  ghost predicate GradesLast(ops: seq<Op>, k: nat, cohort: Id, cid: Id) { IsLast(Gradings(ops, cohort, cid), k) }

  ghost predicate RollTellsOf(ops: seq<Op>, members: map<(Id, Id), Option<CohortOutcome>>, cohort: Id, cid: Id) {
    && (forall k: nat :: GradesLast(ops, k, cohort, cid) ==>
          (cohort, cid) in members && k < |ops| && ops[k].DoOutcome? && members[(cohort, cid)] == Some(ops[k].outcome))
    && ((cohort, cid) in members && members[(cohort, cid)].Some? ==> exists k: nat :: GradesLast(ops, k, cohort, cid))
  }

  lemma GradedNow(ops: seq<Op>, members: map<(Id, Id), Option<CohortOutcome>>, cohort: Id, cid: Id)
    requires ops != [] && Grades(ops, |ops| - 1, cohort, cid)
    requires (cohort, cid) in members && members[(cohort, cid)] == Some(ops[|ops| - 1].outcome)
    ensures RollTellsOf(ops, members, cohort, cid)
  {
    assert GradesLast(ops, |ops| - 1, cohort, cid);
  }

  lemma GradedEarlier(ops: seq<Op>, cohort: Id, cid: Id)
    requires ops != [] && !Grades(ops, |ops| - 1, cohort, cid)
    ensures Gradings(ops, cohort, cid) == Gradings(ops[..|ops| - 1], cohort, cid)
  {
    forall k: nat | k < |ops| - 1 ensures Grades(ops, k, cohort, cid) <==> Grades(ops[..|ops| - 1], k, cohort, cid) {
      WentInEarlier(ops, k);
    }
  }

  /** Nobody graded now, and the roll as it was, or with this person newly on it. */
  lemma GradedBefore(ops: seq<Op>, before: map<(Id, Id), Option<CohortOutcome>>,
                     members: map<(Id, Id), Option<CohortOutcome>>, cohort: Id, cid: Id)
    requires ops != [] && Gradings(ops, cohort, cid) == Gradings(ops[..|ops| - 1], cohort, cid)
    requires RollTellsOf(ops[..|ops| - 1], before, cohort, cid)
    requires (cohort, cid) in before ==> (cohort, cid) in members && members[(cohort, cid)] == before[(cohort, cid)]
    requires (cohort, cid) !in before && (cohort, cid) in members ==> members[(cohort, cid)].None?
    ensures RollTellsOf(ops, members, cohort, cid)
  {
    var front := ops[..|ops| - 1];
    forall k: nat ensures GradesLast(ops, k, cohort, cid) <==> GradesLast(front, k, cohort, cid) { }
    forall k: nat | GradesLast(ops, k, cohort, cid)
      ensures (cohort, cid) in members && k < |ops| && ops[k].DoOutcome? && members[(cohort, cid)] == Some(ops[k].outcome)
    {
      assert GradesLast(front, k, cohort, cid) && front[k] == ops[k];
    }
  }

  /** Over every run: what a cohort's roll says of a person is what was recorded last, and nothing
      if nothing was. */
  lemma {:induction false} TheRollHoldsWhatWasRecordedLast(ops: seq<Op>, cohort: Id, cid: Id)
    ensures RollTellsOf(ops, Run(Empty, ops).members, cohort, cid)
    decreases |ops|
  {
    if ops != [] {
      var front, last := ops[..|ops| - 1], ops[|ops| - 1];
      TheRollHoldsWhatWasRecordedLast(front, cohort, cid);
      LastStep(ops);
      StepRecordsTheGrade(Run(Empty, front), last, cohort, cid);
      if Grades(ops, |ops| - 1, cohort, cid) {
        GradedNow(ops, Run(Empty, ops).members, cohort, cid);
      } else {
        GradedEarlier(ops, cohort, cid);
        GradedBefore(ops, Run(Empty, front).members, Run(Empty, ops).members, cohort, cid);
      }
    }
  }

  lemma StepRecordsTheGrade(db: Db, op: Op, cohort: Id, cid: Id)
    ensures var members, key := Step(db, op).members, (cohort, cid);
      if op.DoOutcome? && op.cohort == cohort && op.cid == cid && Do(db, op).Ok?
      then key in members && members[key] == Some(op.outcome)
      else (key in db.members ==> key in members && members[key] == db.members[key])
           && (key !in db.members && key in members ==> members[key].None?)
  {
    if Do(db, op).Ok? { TheRollsRecordWhatWasReported(db, op, Do(db, op).value); }
  }

  /** Somebody who was erased is withdrawn for good, and is never offered or sent to work again. */
  lemma {:induction false} ErasureIsForGood(db: Db, ops: seq<Op>, c: Id)
    requires c < |db.people| && db.people[c] == Withdrawn
    ensures c < |Run(db, ops).people| && Run(db, ops).people[c] == Withdrawn
    ensures forall rid, facts: Candidate, n :: facts.id == c ==> Offer(Run(db, ops), rid, facts, n).Err?
    ensures forall failed, facts: Candidate, pay, n :: facts.id == c ==> Replace(Run(db, ops), failed, facts, pay, n).Err?
    decreases |ops|
  {
    if ops != [] {
      if Do(db, ops[0]).Ok? { TheRollsRecordWhatWasReported(db, ops[0], Do(db, ops[0]).value); }
      ErasureIsForGood(Step(db, ops[0]), ops[1..], c);
    }
  }
}
