/** Mail about work that is over: the one question an employer may still be asked about it. */
module Chasing {
  import opened Base
  import opened Matching
  import opened Lifecycle
  import opened Invariants
  import opened Steps
  import opened Runs
  import opened Told
  import opened Scenes
  import O = Outbox

  ghost predicate AnyQueued(box: seq<O.Message>, pid: Id) {
    exists i :: 0 <= i < |box| && box[i].placement == Some(pid) && box[i].status == O.Queued
  }

  /** Nothing comes back into the queue, no row changes its subject, and no question is added. */
  ghost predicate AsksNothing(before: seq<O.Message>, after: seq<O.Message>) {
    && |before| <= |after|
    && (forall i :: 0 <= i < |before| ==> StaysOut(before[i], after[i]))
    && (forall i :: |before| <= i < |after| ==> after[i].template != O.AttendanceUnconfirmed)
  }

  predicate StaysOut(a: O.Message, b: O.Message) {
    b.placement == a.placement && b.template == a.template && (b.status == O.Queued ==> a.status == O.Queued)
  }

  lemma AsksNothingTwice(a: seq<O.Message>, b: seq<O.Message>, c: seq<O.Message>)
    requires AsksNothing(a, b) && AsksNothing(b, c)
    ensures AsksNothing(a, c)
  {
    forall i | 0 <= i < |a| ensures StaysOut(a[i], c[i]) { assert StaysOut(a[i], b[i]) && StaysOut(b[i], c[i]); }
    forall i | |a| <= i < |c| ensures c[i].template != O.AttendanceUnconfirmed {
      if i < |b| { assert StaysOut(b[i], c[i]); }
    }
  }

  lemma TellingAsksNothing(db: Db, pid: Id, t: O.Template, smartphone: bool, contact: Option<Id>, due: int)
    requires pid < |db.placements| && t != O.AttendanceUnconfirmed
    ensures AsksNothing(db.box, ToCandidate(db, pid, t, smartphone, due).box)
    ensures AsksNothing(db.box, ToContact(db, pid, t, contact, due).box)
  {
  }

  lemma OfferedAsksNothing(db: Db, pid: Id, n: Notice)
    requires pid < |db.placements|
    ensures AsksNothing(db.box, OnOffered(db, pid, n).box)
  {
    var a := ToCandidate(db, pid, O.PlacementOffer, n.smartphone, n.now);
    TellingAsksNothing(db, pid, O.PlacementOffer, n.smartphone, n.contact, n.now);
    TellingAsksNothing(a, pid, O.EmployerWorkerAssigned, n.smartphone, n.contact, n.now);
    AsksNothingTwice(db.box, a.box, OnOffered(db, pid, n).box);
  }

  lemma CoverAsksNothing(db: Db, failed: Id, pid: Id, n: Notice)
    requires pid < |db.placements|
    ensures AsksNothing(db.box, TellOfCover(db, failed, pid, n).box)
  {
    var told := OnOffered(db, pid, n);
    OfferedAsksNothing(db, pid, n);
    TellingAsksNothing(told, pid, O.EmployerCoverSent, n.smartphone, n.contact, n.now);
    AsksNothingTwice(db.box, told.box, ToContact(told, pid, O.EmployerCoverSent, n.contact, n.now).box);
  }

  lemma CheckInsAskNothing(db: Db, pid: Id, startedOn: int, smartphone: bool)
    requires pid < |db.placements|
    ensures AsksNothing(db.box, WithCheckIns(db, pid, startedOn, smartphone).box)
  {
    var b := ToCandidate(db, pid, O.FollowUp(O.Day1), smartphone, O.AtKigali(startedOn + 1, 9 * O.HOUR));
    var c := ToCandidate(b, pid, O.FollowUp(O.Week1), smartphone, O.AtKigali(startedOn + 7, 9 * O.HOUR));
    var d := ToCandidate(c, pid, O.FollowUp(O.Day30), smartphone, O.AtKigali(startedOn + 30, 9 * O.HOUR));
    var e := ToCandidate(d, pid, O.FollowUp(O.Day90), smartphone, O.AtKigali(startedOn + 90, 9 * O.HOUR));
    AsksNothingTwice(db.box, b.box, c.box);
    AsksNothingTwice(db.box, c.box, d.box);
    AsksNothingTwice(db.box, d.box, e.box);
  }

  lemma StartedAsksNothing(db: Db, pid: Id, startedOn: int, n: Notice)
    requires pid < |db.placements|
    ensures AsksNothing(db.box, OnStarted(db, pid, startedOn, n).box)
  {
    var reminderAt := O.AtKigali(startedOn - 1, 18 * O.HOUR);
    var a := if reminderAt <= n.now then db else ToCandidate(db, pid, O.ShiftReminder, n.smartphone, reminderAt);
    CheckInsAskNothing(a, pid, startedOn, n.smartphone);
    AsksNothingTwice(db.box, a.box, WithCheckIns(a, pid, startedOn, n.smartphone).box);
  }

  lemma {:induction false} CancellingAsksNothing(d: Db, before: seq<Placement>, rid: Id, upTo: nat, n: Notice)
    requires upTo <= |before| == |d.placements|
    ensures AsksNothing(d.box, TellCancelled(d, before, rid, upTo, n).box)
    decreases upTo
  {
    if upTo > 0 {
      var e := TellCancelled(d, before, rid, upTo - 1, n);
      CancellingAsksNothing(d, before, rid, upTo - 1, n);
      if Waiting(before[upTo - 1], rid) {
        var off := OnEnded(e, upTo - 1);
        var told := ToCandidate(off, upTo - 1, O.PlacementCancelled, n.smartphone, n.now);
        TellingAsksNothing(off, upTo - 1, O.PlacementCancelled, n.smartphone, None, n.now);
        AsksNothingTwice(e.box, off.box, told.box);
        AsksNothingTwice(d.box, e.box, told.box);
      }
    }
  }

  lemma OffersAskNothing(db: Db, op: Op, after: Db)
    requires op.DoOffer? || op.DoWriteOffer? || op.DoReplace?
    requires Do(db, op) == Ok(after)
    ensures AsksNothing(db.box, after.box)
  {
    match op
    case DoOffer(rid, facts, n) => OfferedAsksNothing(Insert(db, OfferRow(db, rid, facts.id)).value, |db.placements|, n);
    case DoWriteOffer(rid, cid, n) => OfferedAsksNothing(Insert(db, OfferRow(db, rid, cid)).value, |db.placements|, n);
    case DoReplace(failed, facts, pay, n) =>
      CoverAsksNothing(Insert(db, CoverRow(db, failed, facts.id, pay)).value, failed, |db.placements|, n);
  }

  lemma RespondAsksNothing(db: Db, pid: Id, accepted: bool, n: Notice, after: Db)
    requires Respond(db, pid, accepted, n) == Ok(after)
    ensures AsksNothing(db.box, after.box)
  {
  }

  lemma StartAsksNothing(db: Db, pid: Id, day: int, n: Notice, after: Db)
    requires Start(db, pid, day, n) == Ok(after)
    ensures AsksNothing(db.box, after.box)
  {
    StartedAsksNothing(Begun(SetStatus(db, pid, Active).value, pid, day), pid, day, n);
  }

  lemma EndAsksNothing(db: Db, pid: Id, from: set<Status>, to: Status, endedOn: Option<int>, today: int, after: Db)
    requires End(db, pid, from, to, endedOn, today) == Ok(after)
    ensures AsksNothing(db.box, after.box)
  {
  }

  lemma LogAsksNothing(db: Db, pid: Id, day: int, present: bool, reasonGiven: bool, after: Db)
    requires LogAttendance(db, pid, day, present, reasonGiven) == Ok(after)
    ensures AsksNothing(db.box, after.box)
  {
  }

  /** Only the chase asks. */
  lemma OnlyTheChaseAsks(db: Db, op: Op)
    requires !op.DoChase?
    ensures AsksNothing(db.box, Step(db, op).box)
  {
    if Do(db, op).Ok? {
      var after := Do(db, op).value;
      match op
      case DoOffer(_, _, _) => OffersAskNothing(db, op, after);
      case DoWriteOffer(_, _, _) => OffersAskNothing(db, op, after);
      case DoReplace(_, _, _, _) => OffersAskNothing(db, op, after);
      case DoRespond(pid, accepted, n) => RespondAsksNothing(db, pid, accepted, n, after);
      case DoStart(pid, day, n) => StartAsksNothing(db, pid, day, n, after);
      case DoComplete(pid, endedOn, today) => EndAsksNothing(db, pid, {Active}, Completed, endedOn, today, after);
      case DoTerminate(pid, _, endedOn, today) =>
        EndAsksNothing(db, pid, {Accepted, Active}, Terminated, endedOn, today, after);
      case DoLog(pid, day, present, reasonGiven) => LogAsksNothing(db, pid, day, present, reasonGiven, after);
      case DoCancel(rid, _, _, n) =>
        var d := db.(placements := WithWaitingCancelled(db.placements, rid), cancelled := db.cancelled + {rid});
        CancellingAsksNothing(d, db.placements, rid, |db.placements|, n);
      case _ =>
    }
  }

  // ---- what is written about finished work --------------------------------------------------------

  /** This step asks the employer of this placement, for the first time. */
  ghost predicate Asks(db: Db, op: Op, pid: Id) {
    && op.DoChase? && op.pid == pid && op.contact.Some?
    && Unconfirmed(db, pid, op.today) && !HasMail(db.box, pid, O.AttendanceUnconfirmed)
  }

  lemma AskedIsQueued(db: Db, op: Op, pid: Id)
    requires op.DoChase? && !AnyQueued(db.box, pid)
    ensures AnyQueued(Step(db, op).box, pid) <==> Asks(db, op, pid)
  {
    var after := Step(db, op);
    if after.box != db.box {
      assert after.box[..|db.box|] == db.box;
      assert after.box[|db.box|].placement == Some(op.pid);
      forall i | 0 <= i < |db.box| && after.box[i].placement == Some(pid) ensures after.box[i].status != O.Queued {
        assert after.box[i] == db.box[i];
      }
    }
  }

  /** A completed placement with nothing queued gets something queued by exactly one step: the
      chase, of this placement, while it has been silent for two days, ended within the week,
      has somebody to ask, and nobody was asked before. */
  lemma CompletedWorkIsWrittenAboutExactlyWhen(db: Db, op: Op, pid: Id)
    requires Reachable(db) && pid < |db.placements| && db.placements[pid].status == Completed
    requires !AnyQueued(db.box, pid)
    ensures AnyQueued(Step(db, op).box, pid) <==> Asks(db, op, pid)
    ensures Asks(db, op, pid) ==> pid in db.ended && db.ended[pid] >= op.today - STILL_MATTERS_DAYS
  {
    if op.DoChase? {
      AskedIsQueued(db, op, pid);
    } else {
      var after := Step(db, op);
      StepStaysReachable(db, op);
      StepMovesOnly(db, op);
      assert OneMove(db.placements[pid], after.placements[pid]);
      OnlyTheChaseAsks(db, op);
      forall i | 0 <= i < |after.box| && after.box[i].placement == Some(pid) ensures after.box[i].status != O.Queued {
        if i < |db.box| {
          assert StaysOut(db.box[i], after.box[i]);
        } else if after.box[i].status == O.Queued {
          NothingIsSentAfterTheWork(after, i, pid);
        }
      }
    }
  }

  /** Completing a placement leaves nothing queued about it. */
  lemma CompletionClearsTheQueue(db: Db, pid: Id, endedOn: Option<int>, today: int, after: Db)
    requires Complete(db, pid, endedOn, today) == Ok(after)
    ensures pid < |after.placements| && after.placements[pid].status == Completed && !AnyQueued(after.box, pid)
  {
  }

  ghost predicate AskedDuring(db: Db, ops: seq<Op>, pid: Id)
    decreases |ops|
  {
    ops != [] && (Asks(db, ops[0], pid) || AskedDuring(Step(db, ops[0]), ops[1..], pid))
  }

  ghost predicate EverQueued(db: Db, ops: seq<Op>, pid: Id)
    decreases |ops|
  {
    AnyQueued(db.box, pid) || (ops != [] && EverQueued(Step(db, ops[0]), ops[1..], pid))
  }

  /** Over every run after completion: mail about the placement is ever queued exactly when the
      employer is asked. */
  lemma {:induction false} CompletedWorkIsQuietUnlessAsked(db: Db, ops: seq<Op>, pid: Id)
    requires Reachable(db) && pid < |db.placements| && db.placements[pid].status == Completed
    requires !AnyQueued(db.box, pid)
    ensures EverQueued(db, ops, pid) <==> AskedDuring(db, ops, pid)
    decreases |ops|
  {
    if ops != [] {
      var next := Step(db, ops[0]);
      CompletedWorkIsWrittenAboutExactlyWhen(db, ops[0], pid);
      if !AnyQueued(next.box, pid) {
        StepStaysReachable(db, ops[0]);
        StepMovesOnly(db, ops[0]);
        assert OneMove(db.placements[pid], next.placements[pid]);
        CompletedWorkIsQuietUnlessAsked(next, ops[1..], pid);
      }
    }
  }

  lemma AskedStaysAsked(db: Db, op: Op, pid: Id)
    requires HasMail(db.box, pid, O.AttendanceUnconfirmed)
    ensures HasMail(Step(db, op).box, pid, O.AttendanceUnconfirmed)
  {
    var after := Step(db, op);
    var i :| 0 <= i < |db.box| && db.box[i].placement == Some(pid) && db.box[i].template == O.AttendanceUnconfirmed;
    if op.DoChase? {
      assert after.box[i] == db.box[i];
    } else {
      OnlyTheChaseAsks(db, op);
      assert StaysOut(db.box[i], after.box[i]);
    }
  }

  /** The question is put once in the life of a placement. If it was queued before completion,
      then completion called it off, or it has gone, and it is never put again. */
  lemma {:induction false} AQuestionIsNotRepeated(db: Db, ops: seq<Op>, pid: Id)
    requires HasMail(db.box, pid, O.AttendanceUnconfirmed)
    ensures !AskedDuring(db, ops, pid)
    decreases |ops|
  {
    if ops != [] {
      AskedStaysAsked(db, ops[0], pid);
      AQuestionIsNotRepeated(Step(db, ops[0]), ops[1..], pid);
    }
  }

  // ---- it does happen ----------------------------------------------------------------------------------

  lemma FinishedScene() returns (db: Db)
    ensures Scene(db, Completed) && db.started == map[0 := 1] && db.ended == map[0 := 3] && db.log == map[]
    ensures !AnyQueued(db.box, 0) && !HasMail(db.box, 0, O.AttendanceUnconfirmed)
  {
    var offered := OfferedScene();
    var begun := StartedScene(offered);
    var op := DoComplete(0, None, 3);
    StepStaysReachable(begun, op);
    OnlyTheChaseAsks(begun, op);
    db := Step(begun, op);
    CompletionClearsTheQueue(begun, 0, None, 3, db);
    UnaskedStaysUnasked(begun.box, db.box, 0);
  }

  lemma UnaskedStaysUnasked(before: seq<O.Message>, after: seq<O.Message>, pid: Id)
    requires AsksNothing(before, after) && !HasMail(before, pid, O.AttendanceUnconfirmed)
    ensures !HasMail(after, pid, O.AttendanceUnconfirmed)
  {
    forall i | 0 <= i < |after| && after[i].placement == Some(pid) ensures after[i].template != O.AttendanceUnconfirmed {
      if i < |before| { assert StaysOut(before[i], after[i]); }
    }
  }

  lemma StartedScene(was: Db) returns (db: Db)
    requires Scene(was, Offered) && was.started == map[] && was.ended == map[] && was.log == map[]
    requires !HasMail(was.box, 0, O.AttendanceUnconfirmed)
    ensures Scene(db, Active) && db.started == map[0 := 1] && db.ended == map[] && db.log == map[]
    ensures !HasMail(db.box, 0, O.AttendanceUnconfirmed)
  {
    var op := DoStart(0, 1, QUIETLY);
    StepStaysReachable(was, op);
    OnlyTheChaseAsks(was, op);
    db := Step(was, op);
    UnaskedStaysUnasked(was.box, db.box, 0);
    StartedKeepsTables(Begun(SetStatus(was, 0, Active).value, 0, 1), 0, 1, QUIETLY);
  }

  /** Some reachable state has a completed placement with its question in the queue. */
  lemma AFinishedShiftIsAskedAbout()
    ensures exists db: Db :: Scene(db, Completed) && AnyQueued(db.box, 0)
  {
    var done := FinishedScene();
    var op := DoChase(0, Some(0), 3, 0);
    StepStaysReachable(done, op);
    AskedIsQueued(done, op, 0);
    assert Scene(Step(done, op), Completed) && AnyQueued(Step(done, op).box, 0);
  }
}
