/** The life cycle as the application runs it: guarded updates of the tables, step by step, each
    operation leaving the tables its specification gives, or, when refused, as they were. */
module Desk {
  import opened Base
  import opened Matching
  import opened Lifecycle
  import opened Invariants
  import opened Runs
  import opened Conditions
  import opened Terms
  import opened Reports
  import opened Steps
  import O = Outbox

  /** The tables after an operation, refused or not. */
  function Settled(before: Db, r: Result<Db, Refusal>): Db {
    if r.Ok? then r.value else before
  }

  function Complaint(r: Result<Db, Refusal>): Option<Refusal> {
    if r.Ok? then None else Some(r.error)
  }

  lemma DayKeepsInv(before: Db, pid: Id, day: int, present: bool, reasonGiven: bool, after: Db)
    requires Inv(before)
    requires after == Settled(before, LogAttendance(before, pid, day, present, reasonGiven))
    ensures Inv(after)
    ensures LogAttendance(before, pid, day, present, reasonGiven).Ok? ==>
      pid < |after.placements| && (Invokes(before, pid, day, present) == (after.placements[pid].status == NoShow))
  {
    var r := LogAttendance(before, pid, day, present, reasonGiven);
    if r.Ok? {
      LogKeepsInv(before, pid, day, present, reasonGiven, after);
      InvocationIsANoShow(before, pid, day, present, reasonGiven, after);
    }
  }

  lemma ChaseStepKeepsInv(db: Db, pid: Id, contact: Option<Id>, today: int, now: int)
    requires Inv(db)
    ensures Inv(Step(db, DoChase(pid, contact, today, now)))
  {
    StepKeepsInv(db, DoChase(pid, contact, today, now));
  }

  /** The condition of an operation, beside what it leaves. */
  lemma GoesInAs(before: Db, op: Op, r: Result<Db, Refusal>)
    requires Inv(before) && r == Do(before, op)
    ensures Complaint(r).None? <==> GoesIn(before, op)
  {
    GoesInExactlyWhen(before, op);
  }

  /** This placement has ended so, on the day it comes to, and no other moved. */
  ghost predicate EndedWell(before: Db, op: Op, after: Db, to: Status)
    requires op.DoComplete? || op.DoTerminate?
  {
    && op.pid < |before.placements|
    && after.placements == before.placements[op.pid := before.placements[op.pid].(status := to)]
    && OnlyDatesAsGiven(before, op, after)
  }

  lemma EndsWell(before: Db, op: Op, after: Db)
    requires (op.DoComplete? || op.DoTerminate?) && Do(before, op) == Ok(after)
    ensures EndedWell(before, op, after, if op.DoComplete? then Completed else Terminated)
  {
    AnswersLandWhereTheySay(before, op, after);
    EndDates(before, op, after);
  }

  lemma RequestsAreThere(db: Db)
    requires Inv(db)
    ensures forall i :: 0 <= i < |db.placements| ==>
      db.placements[i].request < |db.requests| && Sane(db.requests[db.placements[i].request])
  {
  }

  lemma ReplacedKeepsInv(before: Db, failed: Id, facts: Candidate, pay: Option<int>, n: Notice)
    requires Inv(before)
    ensures Inv(Settled(before, Replace(before, failed, facts, pay, n)))
  {
    var r := Replace(before, failed, facts, pay, n);
    if r.Ok? { CoverKeepsInv(before, failed, facts.id, pay, n, r.value); }
  }

  class Desk {
    var requests: seq<WorkRequest>
    var cancelled: set<Id>
    var placements: seq<Placement>
    var log: map<LogKey, bool>
    var started: map<Id, int>
    var ended: map<Id, int>
    var people: seq<PersonStatus>
    var members: map<(Id, Id), Option<CohortOutcome>>
    var results: seq<Id>
    var box: seq<O.Message>

    ghost function Tables(): Db
      reads this
    {
      Db(requests, cancelled, placements, log, started, ended, people, members, results, box)
    }

    ghost predicate Valid()
      reads this
    {
      Inv(Tables())
    }

    constructor ()
      ensures Valid() && Tables() == Empty
    {
      requests, cancelled, placements, log, started, ended := [], {}, [], map[], map[], map[];
      people, members, results, box := [], map[], [], [];
    }

    // ---- one statement each ------------------------------------------------------------------

    /** An UPDATE of one status, which the trigger may refuse. */
    method WriteStatus(pid: Id, s: Status) returns (refused: Option<Refusal>)
      requires pid < |placements|
      modifies `placements
      ensures Tables() == Settled(old(Tables()), SetStatus(old(Tables()), pid, s))
      ensures refused == Complaint(SetStatus(old(Tables()), pid, s))
    {
      var row := placements[pid].(status := s);
      if GuardRefuses(requests, placements, pid, row) { return Some(Clashes); }
      placements := placements[pid := row];
      refused := None;
    }

    /** An INSERT, past the trigger and both unique indexes. */
    method InsertRow(row: Placement) returns (refused: Option<Refusal>)
      modifies `placements
      ensures Tables() == Settled(old(Tables()), Insert(old(Tables()), row))
      ensures refused == Complaint(Insert(old(Tables()), row))
    {
      if GuardRefuses(requests, placements, |placements|, row) { return Some(Clashes); }
      if OnRequestAlready(placements, row) { return Some(OfferedBefore); }
      if CoverStanding(placements, row) { return Some(CoverOnTheTable); }
      placements := placements + [row];
      refused := None;
    }

    method RefreshCandidateStatus(c: Id)
      modifies `people
      ensures Tables() == Refresh(old(Tables()), c)
    {
      if c >= |people| || people[c] == Withdrawn || people[c] == Inactive { return; }
      var status := Registered;
      if HasWork(placements, c) {
        status := Placed;
      } else if exists k :: k in members && k.1 == c && members[k] == Some(CompletedCohort) {
        status := Trained;
      } else if c in results {
        status := Assessed;
      }
      people := people[c := status];
    }

    method QueueToCandidate(pid: Id, t: O.Template, smartphone: bool, due: int)
      requires pid < |placements|
      modifies `box
      ensures Tables() == ToCandidate(old(Tables()), pid, t, smartphone, due)
    {
      var to := O.Recipient.Candidate(placements[pid].candidate);
      box := O.Post(box, O.NewMessage(to, Some(pid), t, if smartphone then O.WhatsApp else O.Sms, due));
    }

    method QueueToContact(pid: Id, t: O.Template, contact: Option<Id>, due: int)
      modifies `box
      ensures Tables() == ToContact(old(Tables()), pid, t, contact, due)
    {
      if contact.Some? {
        box := O.Post(box, O.NewMessage(O.Contact(contact.value), Some(pid), t, O.WhatsApp, due));
      }
    }

    method OnPlacementEnded(pid: Id)
      modifies `box
      ensures Tables() == OnEnded(old(Tables()), pid)
    {
      box := O.CallOffFor(box, pid);
    }

    method OnPlacementOffered(pid: Id, n: Notice)
      requires pid < |placements|
      modifies `box
      ensures Tables() == OnOffered(old(Tables()), pid, n)
    {
      QueueToCandidate(pid, O.PlacementOffer, n.smartphone, n.now);
      QueueToContact(pid, O.EmployerWorkerAssigned, n.contact, n.now);
    }

    /** The reminder, then one message per checkpoint. */
    method OnPlacementStarted(pid: Id, startedOn: int, n: Notice)
      requires pid < |placements|
      modifies `box
      ensures Tables() == OnStarted(old(Tables()), pid, startedOn, n)
    {
      var reminderAt := O.AtKigali(startedOn - 1, 18 * O.HOUR);
      if reminderAt > n.now { QueueToCandidate(pid, O.ShiftReminder, n.smartphone, reminderAt); }
      QueueToCandidate(pid, O.FollowUp(O.Day1), n.smartphone, O.AtKigali(startedOn + 1, 9 * O.HOUR));
      QueueToCandidate(pid, O.FollowUp(O.Week1), n.smartphone, O.AtKigali(startedOn + 7, 9 * O.HOUR));
      QueueToCandidate(pid, O.FollowUp(O.Day30), n.smartphone, O.AtKigali(startedOn + 30, 9 * O.HOUR));
      QueueToCandidate(pid, O.FollowUp(O.Day90), n.smartphone, O.AtKigali(startedOn + 90, 9 * O.HOUR));
    }

    // ---- operations -----------------------------------------------------------------------------

    method OfferPlacement(rid: Id, facts: Candidate, n: Notice) returns (refused: Option<Refusal>)
      requires Valid()
      modifies this
      ensures Valid()
      ensures Tables() == Settled(old(Tables()), Offer(old(Tables()), rid, facts, n))
      ensures refused == Complaint(Offer(old(Tables()), rid, facts, n))
      ensures refused.None? <==> MayBeOffered(old(Tables()), rid, facts) && FreeFor(old(Tables()), facts.id, rid)
    {
      StepKeepsInv(Tables(), DoOffer(rid, facts, n));
      OfferGoesInExactlyWhen(Tables(), rid, facts, n);
      if rid >= |requests| || facts.id >= |people| || Decided(people[facts.id]) { return Some(NotEligible); }
      var request := requests[rid];
      var row := Placement(rid, facts.id, Offered, request.payRwf, request.payUnit, None);
      var busy := GuardRefuses(requests, placements, |placements|, row);
      if !Sane(request) || !Survives(facts.(committed := busy), request) { return Some(NotEligible); }
      refused := InsertOffer(rid, facts.id, n);
    }

    /** The guarded insert, and the messages when it goes in. */
    method InsertOffer(rid: Id, cid: Id, n: Notice) returns (refused: Option<Refusal>)
      modifies `placements, `box
      ensures Tables() == Settled(old(Tables()), WriteOffer(old(Tables()), rid, cid, n))
      ensures refused == Complaint(WriteOffer(old(Tables()), rid, cid, n))
    {
      if rid >= |requests| || cid >= |people| { return Some(NoSuchRow); }
      refused := InsertRow(Placement(rid, cid, Offered, requests[rid].payRwf, requests[rid].payUnit, None));
      if refused.None? { OnPlacementOffered(|placements| - 1, n); }
    }

    method RespondToOffer(pid: Id, accepted: bool, n: Notice) returns (refused: Option<Refusal>)
      requires Valid()
      modifies this
      ensures Valid()
      ensures Tables() == Settled(old(Tables()), Respond(old(Tables()), pid, accepted, n))
      ensures refused == Complaint(Respond(old(Tables()), pid, accepted, n))
      ensures refused.None? <==> pid < |old(placements)| && old(placements)[pid].status == Offered
      ensures refused.None? ==>
        var row := old(placements)[pid];
        placements == old(placements)[pid := row.(status := if accepted then Accepted else Declined)]
    {
      StepKeepsInv(Tables(), DoRespond(pid, accepted, n));
      GoesInAs(Tables(), DoRespond(pid, accepted, n), Respond(Tables(), pid, accepted, n));
      if pid >= |placements| || placements[pid].status != Offered { return Some(WrongStatus); }
      refused := WriteStatus(pid, if accepted then Accepted else Declined);
      if refused.Some? { return; }
      RefreshCandidateStatus(placements[pid].candidate);
      if accepted && n.contract { QueueToCandidate(pid, O.PlacementContract, n.smartphone, n.now); }
      if !accepted { OnPlacementEnded(pid); }
    }

    method StartPlacement(pid: Id, startedOn: int, n: Notice) returns (refused: Option<Refusal>)
      requires Valid()
      modifies this
      ensures Valid()
      ensures Tables() == Settled(old(Tables()), Start(old(Tables()), pid, startedOn, n))
      ensures refused == Complaint(Start(old(Tables()), pid, startedOn, n))
      ensures refused.None? <==> pid < |old(placements)| && old(placements)[pid].status in {Offered, Accepted}
      ensures refused.None? ==> placements == old(placements)[pid := old(placements)[pid].(status := Active)]
      ensures refused.None? ==> OnlyDatesAsGiven(old(Tables()), DoStart(pid, startedOn, n), Tables())
    {
      GoesInAs(Tables(), DoStart(pid, startedOn, n), Start(Tables(), pid, startedOn, n));
      if pid >= |placements| || (placements[pid].status != Offered && placements[pid].status != Accepted) {
        return Some(WrongStatus);
      }
      ghost var before := Tables();
      refused := WriteStatus(pid, Active);
      if refused.Some? { return; }
      Begin(pid, startedOn, n);
      StartKeepsInv(before, pid, startedOn, n, Tables());
      StartLandsWhereItSays(before, pid, startedOn, n, Tables());
      StartDates(before, pid, startedOn, n, Tables());
    }

    /** The start date, the candidate's status and the messages of a start. */
    method Begin(pid: Id, startedOn: int, n: Notice)
      requires pid < |placements|
      modifies `started, `people, `box
      ensures Tables() == OnStarted(Begun(old(Tables()), pid, startedOn), pid, startedOn, n)
    {
      started := started[pid := startedOn];
      RefreshCandidateStatus(placements[pid].candidate);
      OnPlacementStarted(pid, startedOn, n);
    }

    method CompletePlacement(pid: Id, endedOn: Option<int>, today: int) returns (refused: Option<Refusal>)
      requires Valid()
      modifies this
      ensures Valid()
      ensures Tables() == Settled(old(Tables()), Complete(old(Tables()), pid, endedOn, today))
      ensures refused == Complaint(Complete(old(Tables()), pid, endedOn, today))
      ensures refused.None? <==> pid < |old(placements)| && old(placements)[pid].status == Active
      ensures refused.None? ==> EndedWell(old(Tables()), DoComplete(pid, endedOn, today), Tables(), Completed)
    {
      GoesInAs(Tables(), DoComplete(pid, endedOn, today), Complete(Tables(), pid, endedOn, today));
      if pid >= |placements| || placements[pid].status != Active { return Some(WrongStatus); }
      ghost var before := Tables();
      refused := EndAs(pid, Completed, endedOn, today);
      if refused.None? {
        EndKeepsInv(before, pid, {Active}, Completed, endedOn, today, Tables());
        EndsWell(before, DoComplete(pid, endedOn, today), Tables());
      }
    }

    method TerminatePlacement(pid: Id, reasonGiven: bool, endedOn: Option<int>, today: int)
        returns (refused: Option<Refusal>)
      requires Valid()
      modifies this
      ensures Valid()
      ensures Tables() == Settled(old(Tables()), Terminate(old(Tables()), pid, reasonGiven, endedOn, today))
      ensures refused == Complaint(Terminate(old(Tables()), pid, reasonGiven, endedOn, today))
      ensures refused.None? <==>
        reasonGiven && pid < |old(placements)| && old(placements)[pid].status in {Accepted, Active}
      ensures refused.None? ==> EndedWell(old(Tables()), DoTerminate(pid, reasonGiven, endedOn, today), Tables(), Terminated)
    {
      GoesInAs(Tables(), DoTerminate(pid, reasonGiven, endedOn, today), Terminate(Tables(), pid, reasonGiven, endedOn, today));
      if !reasonGiven { return Some(NeedsReason); }
      if pid >= |placements| || (placements[pid].status != Accepted && placements[pid].status != Active) {
        return Some(WrongStatus);
      }
      ghost var before := Tables();
      refused := EndAs(pid, Terminated, endedOn, today);
      if refused.None? {
        EndKeepsInv(before, pid, {Accepted, Active}, Terminated, endedOn, today, Tables());
        EndsWell(before, DoTerminate(pid, reasonGiven, endedOn, today), Tables());
      }
    }

    /** The status and the end date, the candidate's status, and the end of what is queued. */
    method EndAs(pid: Id, to: Status, endedOn: Option<int>, today: int) returns (refused: Option<Refusal>)
      requires pid < |placements|
      modifies `placements, `ended, `people, `box
      ensures Tables() == Settled(old(Tables()), End(old(Tables()), pid, {old(placements[pid].status)}, to, endedOn, today))
      ensures refused == Complaint(End(old(Tables()), pid, {old(placements[pid].status)}, to, endedOn, today))
    {
      refused := WriteStatus(pid, to);
      if refused.Some? { return; }
      ended := ended[pid := EndDate(endedOn, if pid in started then Some(started[pid]) else None, today)];
      RefreshCandidateStatus(placements[pid].candidate);
      OnPlacementEnded(pid);
    }

    /** One question to the employer of every placement that is unconfirmed and has somebody to
        ask, unless it was asked before; the number returned is how many were asked just now. */
    method ChaseUnconfirmedAttendance(contacts: Id -> Option<Id>, today: int, now: int) returns (asked: nat)
      requires Valid()
      modifies `box
      ensures Valid()
      ensures Tables() == Chased(old(Tables()), contacts, today, now, |placements|)
      ensures |box| == |old(box)| + asked && old(box) <= box
    {
      ghost var start := Tables();
      asked := 0;
      for pid := 0 to |placements|
        invariant Valid() && Tables() == start.(box := box)
        invariant Tables() == Chased(start, contacts, today, now, pid)
        invariant |box| == |start.box| + asked && start.box <= box
      {
        ghost var before := Tables();
        var one := AskOnce(pid, contacts(pid), today, now);
        asked := asked + one;
        ChaseStepKeepsInv(before, pid, contacts(pid), today, now);
      }
    }

    method AskOnce(pid: Id, contact: Option<Id>, today: int, now: int) returns (asked: nat)
      requires pid < |placements|
      modifies `box
      ensures Tables() == Step(old(Tables()), DoChase(pid, contact, today, now))
      ensures |box| == |old(box)| + asked && old(box) <= box
    {
      asked := 0;
      var unconfirmed :=
        pid in started && started[pid] < today
        && (placements[pid].status == Active
            || (placements[pid].status == Completed && pid in ended && ended[pid] >= today - STILL_MATTERS_DAYS))
        && (if Logged(log, pid) then forall k :: k in log && k.0 == pid ==> today - k.1 >= SILENT_AFTER_DAYS
            else today - started[pid] >= SILENT_AFTER_DAYS);
      if !unconfirmed || contact.None? { return; }
      var m := O.NewMessage(O.Contact(contact.value), Some(pid), O.AttendanceUnconfirmed, O.WhatsApp, now);
      if !O.AlreadyQueued(box, m) {
        box := box + [m];
        asked := 1;
      }
    }

    /** Days attended, counted over the whole log. */
    method AnyDayAttended(pid: Id) returns (any: bool)
      ensures any == Attended(log, pid)
    {
      var left := log;
      any := false;
      while left != map[]
        invariant forall k :: k in left ==> k in log && left[k] == log[k]
        invariant forall k :: k in log && k !in left ==> k.0 != pid || !log[k]
        decreases left.Keys
      {
        var k :| k in left;
        if k.0 == pid && left[k] { return true; }
        left := left - {k};
      }
    }

    /** One day recorded, with the guarantee put on the clock exactly when the placement is a
        no-show afterwards. */
    method LogAttendance(pid: Id, day: int, present: bool, reasonGiven: bool)
        returns (refused: Option<Refusal>, invoked: bool)
      requires Valid()
      modifies this
      ensures Valid()
      ensures Tables() == Settled(old(Tables()), Lifecycle.LogAttendance(old(Tables()), pid, day, present, reasonGiven))
      ensures refused == Complaint(Lifecycle.LogAttendance(old(Tables()), pid, day, present, reasonGiven))
      ensures invoked == (refused.None? && Invokes(old(Tables()), pid, day, present))
      ensures refused.None? ==> pid < |placements| && invoked == (placements[pid].status == NoShow)
      ensures refused.None? <==> GoesIn(old(Tables()), DoLog(pid, day, present, reasonGiven))
      ensures log == if refused.None? then old(log)[(pid, day) := present] else old(log)
    {
      ghost var before := Tables();
      refused, invoked := LogDay(pid, day, present, reasonGiven);
      DayKeepsInv(before, pid, day, present, reasonGiven, Tables());
      GoesInAs(before, DoLog(pid, day, present, reasonGiven), Lifecycle.LogAttendance(before, pid, day, present, reasonGiven));
      if refused.None? { LogWritesItsDay(before, pid, day, present, reasonGiven, Tables()); }
    }

    /** The upsert comes before the status: a correction the trigger refuses takes it back. */
    method LogDay(pid: Id, day: int, present: bool, reasonGiven: bool) returns (refused: Option<Refusal>, invoked: bool)
      modifies this
      ensures Tables() == Settled(old(Tables()), Lifecycle.LogAttendance(old(Tables()), pid, day, present, reasonGiven))
      ensures refused == Complaint(Lifecycle.LogAttendance(old(Tables()), pid, day, present, reasonGiven))
      ensures invoked == (refused.None? && Invokes(old(Tables()), pid, day, present))
    {
      if pid >= |placements| { return Some(NoSuchRow), false; }
      var status := placements[pid].status;
      if status != Accepted && status != Active && status != NoShow { return Some(WrongStatus), false; }
      if !present && !reasonGiven { return Some(NeedsReason), false; }
      if present && status == NoShow && Covered(placements, pid) { return Some(AlreadyCovered), false; }

      var saved := log;
      log := log[(pid, day) := present];
      if present {
        refused := None;
        if status == NoShow { refused := CorrectNoShow(pid); }
        if refused.Some? { log := saved; }
        return refused, false;
      }
      var attended := AnyDayAttended(pid);
      if !attended { RecordNoShow(pid); }
      return None, !attended;
    }

    /** They did arrive after all. */
    method CorrectNoShow(pid: Id) returns (refused: Option<Refusal>)
      requires pid < |placements|
      modifies `placements, `people
      ensures refused == Complaint(SetStatus(old(Tables()), pid, Active))
      ensures refused.Some? ==> Tables() == old(Tables())
      ensures refused.None? ==>
        Tables() == Refresh(SetStatus(old(Tables()), pid, Active).value, old(placements[pid].candidate))
    {
      refused := WriteStatus(pid, Active);
      if refused.None? { RefreshCandidateStatus(placements[pid].candidate); }
    }

    method RecordNoShow(pid: Id)
      requires pid < |placements|
      modifies `placements, `people, `box
      ensures SetStatus(old(Tables()), pid, NoShow).Ok?
      ensures Tables() ==
        OnEnded(Refresh(SetStatus(old(Tables()), pid, NoShow).value, old(placements[pid].candidate)), pid)
    {
      var refused := WriteStatus(pid, NoShow);
      RefreshCandidateStatus(placements[pid].candidate);
      OnPlacementEnded(pid);
    }

    method RecordReplacement(failed: Id, facts: Candidate, pay: Option<int>, n: Notice) returns (refused: Option<Refusal>)
      requires Valid()
      modifies this
      ensures Valid()
      ensures Tables() == Settled(old(Tables()), Replace(old(Tables()), failed, facts, pay, n))
      ensures refused == Complaint(Replace(old(Tables()), failed, facts, pay, n))
      ensures refused.None? <==> GoesIn(old(Tables()), DoReplace(failed, facts, pay, n))
      ensures refused.None? ==> |placements| == |old(placements)| + 1
      ensures refused.None? ==> IsCoverFor(old(Tables()), placements[|old(placements)|], failed, facts.id, pay)
    {
      ghost var before := Tables();
      RequestsAreThere(before);
      refused := Cover(failed, facts, pay, n);
      ReplacedKeepsInv(before, failed, facts, pay, n);
      GoesInAs(before, DoReplace(failed, facts, pay, n), Replace(before, failed, facts, pay, n));
      if refused.None? { CoverAddsItsRow(before, failed, facts.id, pay, n, Tables()); }
    }

    method Cover(failed: Id, facts: Candidate, pay: Option<int>, n: Notice) returns (refused: Option<Refusal>)
      requires failed < |placements| ==> placements[failed].request < |requests| && Sane(requests[placements[failed].request])
      modifies this
      ensures Tables() == Settled(old(Tables()), Replace(old(Tables()), failed, facts, pay, n))
      ensures refused == Complaint(Replace(old(Tables()), failed, facts, pay, n))
    {
      if failed >= |placements| { return Some(NoSuchRow); }
      if placements[failed].status != NoShow { return Some(WrongStatus); }
      var request := requests[placements[failed].request];
      if facts.id >= |people| || Decided(people[facts.id]) || RightsExclusion(facts, request).Some? {
        return Some(NotEligible);
      }
      refused := SendCover(failed, facts.id, pay, n);
    }

    method SendCover(failed: Id, cid: Id, pay: Option<int>, n: Notice) returns (refused: Option<Refusal>)
      requires failed < |placements|
      modifies `placements, `box
      ensures Tables() == Settled(old(Tables()), CoverSent(old(Tables()), failed, cid, pay, n))
      ensures refused == Complaint(CoverSent(old(Tables()), failed, cid, pay, n))
    {
      var covered := placements[failed];
      var agreed := if pay.Some? && pay.value != 0 then pay.value else covered.payRwf;
      if agreed <= 0 { return Some(BadPay); }
      refused := InsertRow(Placement(covered.request, cid, Offered, agreed, covered.payUnit, Some(failed)));
      if refused.None? { OnCoverSent(failed, |placements| - 1, n); }
    }

    method OnCoverSent(failed: Id, pid: Id, n: Notice)
      requires pid < |placements|
      modifies `box
      ensures Tables() == TellOfCover(old(Tables()), failed, pid, n)
    {
      OnPlacementOffered(pid, n);
      if exists k :: k in log && k.0 == failed && !log[k] {
        QueueToContact(pid, O.EmployerCoverSent, n.contact, n.now);
      }
    }

    method CancelWorkRequest(rid: Id, reasonGiven: bool, employer: Option<Id>, n: Notice) returns (refused: Option<Refusal>)
      requires Valid()
      modifies this
      ensures Valid()
      ensures Tables() == Settled(old(Tables()), CancelRequest(old(Tables()), rid, reasonGiven, employer, n))
      ensures refused == Complaint(CancelRequest(old(Tables()), rid, reasonGiven, employer, n))
      ensures refused.None? <==> GoesIn(old(Tables()), DoCancel(rid, reasonGiven, employer, n))
    {
      ghost var before := Tables();
      GoesInAs(before, DoCancel(rid, reasonGiven, employer, n), CancelRequest(before, rid, reasonGiven, employer, n));
      refused := Withdraw(rid, reasonGiven, employer, n);
      if refused.None? { CancelKeepsInv(before, rid, reasonGiven, employer, n, Tables()); }
    }

    /** Every placement still waiting is cancelled at once, then each worker is told in turn. */
    method Withdraw(rid: Id, reasonGiven: bool, employer: Option<Id>, n: Notice) returns (refused: Option<Refusal>)
      modifies this
      ensures Tables() == Settled(old(Tables()), CancelRequest(old(Tables()), rid, reasonGiven, employer, n))
      ensures refused == Complaint(CancelRequest(old(Tables()), rid, reasonGiven, employer, n))
    {
      if !reasonGiven { return Some(NeedsReason); }
      if rid >= |requests| { return Some(NoSuchRow); }
      if employer.Some? && requests[rid].employer != employer.value { return Some(NoSuchRow); }
      if rid in cancelled { return Some(AlreadyCancelled); }
      if HasStartedWork(placements, rid) { return Some(HasStarted); }
      var before := placements;
      placements := WithWaitingCancelled(placements, rid);
      cancelled := cancelled + {rid};
      TellTheWorkers(before, rid, n);
      refused := None;
    }

    method TellTheWorkers(before: seq<Placement>, rid: Id, n: Notice)
      requires |before| == |placements|
      modifies `box, `people
      ensures Tables() == TellCancelled(old(Tables()), before, rid, |before|, n)
    {
      ghost var start := Tables();
      for i := 0 to |before|
        invariant placements == start.placements
        invariant Tables() == TellCancelled(start, before, rid, i, n)
      {
        if Waiting(before[i], rid) {
          OnPlacementEnded(i);
          QueueToCandidate(i, O.PlacementCancelled, n.smartphone, n.now);
          RefreshCandidateStatus(before[i].candidate);
        }
      }
    }

    method RecordOutcomeOf(cohort: Id, cid: Id, outcome: CohortOutcome) returns (refused: Option<Refusal>)
      requires Valid()
      modifies this
      ensures Valid()
      ensures Tables() == Settled(old(Tables()), RecordOutcome(old(Tables()), cohort, cid, outcome))
      ensures refused == Complaint(RecordOutcome(old(Tables()), cohort, cid, outcome))
    {
      if (cohort, cid) !in members { return Some(NotAMember); }
      ghost var before := Tables();
      WriteOutcome(cohort, cid, outcome);
      OutcomeKeepsInv(before, cohort, cid, outcome, Tables());
      refused := None;
    }

    method WriteOutcome(cohort: Id, cid: Id, outcome: CohortOutcome)
      requires (cohort, cid) in members
      modifies `members, `people
      ensures Ok(Tables()) == RecordOutcome(old(Tables()), cohort, cid, outcome)
    {
      members := members[(cohort, cid) := Some(outcome)];
      RefreshCandidateStatus(cid);
    }

    /** Writes the status itself: only registered moves, to assessed. */
    method RecordAssessmentResult(cid: Id) returns (refused: Option<Refusal>)
      requires Valid()
      modifies this
      ensures Valid()
      ensures Tables() == Settled(old(Tables()), RecordResult(old(Tables()), cid))
      ensures refused == Complaint(RecordResult(old(Tables()), cid))
    {
      StepKeepsInv(Tables(), DoResult(cid));
      if cid >= |people| { return Some(NoSuchRow); }
      results := results + [cid];
      if people[cid] == Registered { people := people[cid := Assessed]; }
      refused := None;
    }
  }
}
