/** What a withdrawn request is spared, and what not: the three ways work on it can come to life. */
module Withdrawal {
  import opened Base
  import opened Shifts
  import opened Matching
  import opened Lifecycle
  import opened Invariants
  import opened Runs
  import opened Conditions
  import opened Scenes

  /** This row is on the request and holds somebody's time. */
  predicate LiveOn(ps: seq<Placement>, i: Id, rid: Id) {
    i < |ps| && ps[i].request == rid && Live(ps[i].status)
  }

  ghost predicate NobodyLiveOn(ps: seq<Placement>, rid: Id) {
    forall i: Id :: !LiveOn(ps, i, rid)
  }

  /** Somebody holds time for the request who did not before. */
  ghost predicate Revives(before: Db, after: Db, rid: Id) {
    exists i: Id :: LiveOn(after.placements, i, rid) && !LiveOn(before.placements, i, rid)
  }

  predicate NoShowOf(db: Db, pid: Id, rid: Id) {
    pid < |db.placements| && db.placements[pid].request == rid && db.placements[pid].status == NoShow
  }

  /** The doors: an offer of the request, cover for a no-show on it, or word that a no-show on it
      came after all. */
  predicate IsDoor(db: Db, op: Op, rid: Id) {
    match op
    case DoOffer(r, _, _) => r == rid
    case DoWriteOffer(r, _, _) => r == rid
    case DoReplace(failed, _, _, _) => NoShowOf(db, failed, rid)
    case DoLog(pid, _, present, _) => present && NoShowOf(db, pid, rid)
    case _ => false
  }

  lemma OneRowRevives(db: Db, after: Db, pid: Id, s: Status, rid: Id)
    requires pid < |db.placements| && after.placements == db.placements[pid := db.placements[pid].(status := s)]
    ensures Revives(db, after, rid) <==>
      db.placements[pid].request == rid && Live(s) && !Live(db.placements[pid].status)
  {
    if db.placements[pid].request == rid && Live(s) && !Live(db.placements[pid].status) {
      assert LiveOn(after.placements, pid, rid) && !LiveOn(db.placements, pid, rid);
    }
  }

  lemma NewRowRevives(db: Db, after: Db, row: Placement, rid: Id)
    requires after.placements == db.placements + [row] && Live(row.status)
    ensures Revives(db, after, rid) <==> row.request == rid
  {
    var n := |db.placements|;
    assert after.placements[n] == row && !LiveOn(db.placements, n, rid);
    if row.request == rid { assert LiveOn(after.placements, n, rid); }
  }

  lemma AnswersRevive(db: Db, op: Op, after: Db, rid: Id)
    requires IsAnswer(op) && Do(db, op) == Ok(after)
    ensures !Revives(db, after, rid)
  {
    AnswersLandWhereTheySay(db, op, after);
    OneRowRevives(db, after, op.pid, Landing(op), rid);
  }

  lemma OffersRevive(db: Db, op: Op, after: Db, rid: Id)
    requires op.DoOffer? || op.DoWriteOffer? || op.DoReplace?
    requires Do(db, op) == Ok(after)
    ensures Revives(db, after, rid) <==> IsDoor(db, op, rid)
  {
    match op
    case DoOffer(r, facts, _) => NewRowRevives(db, after, OfferRow(db, r, facts.id), rid);
    case DoWriteOffer(r, cid, _) => NewRowRevives(db, after, OfferRow(db, r, cid), rid);
    case DoReplace(failed, facts, pay, _) => NewRowRevives(db, after, CoverRow(db, failed, facts.id, pay), rid);
  }

  lemma LogRevives(db: Db, pid: Id, day: int, present: bool, reasonGiven: bool, after: Db, rid: Id)
    requires LogAttendance(db, pid, day, present, reasonGiven) == Ok(after)
    ensures Revives(db, after, rid) <==> present && NoShowOf(db, pid, rid)
  {
    if present && db.placements[pid].status == NoShow {
      OneRowRevives(db, after, pid, Active, rid);
    } else if after.placements != db.placements {
      OneRowRevives(db, after, pid, NoShow, rid);
    }
  }

  lemma CancellingRevivesNobody(db: Db, r: Id, reasonGiven: bool, employer: Option<Id>, n: Notice, after: Db, rid: Id)
    requires CancelRequest(db, r, reasonGiven, employer, n) == Ok(after)
    ensures !Revives(db, after, rid)
  {
  }

  /** At any step, and so at every step after a withdrawal: somebody comes to hold time for a
      request exactly when the step is an offer of it, cover for its no-show, or a correction of
      its no-show, and goes in. Whether the request still stands is nowhere asked. */
  lemma WorkComesToLifeThroughThreeDoors(db: Db, op: Op, rid: Id)
    ensures Revives(db, Step(db, op), rid) <==> Do(db, op).Ok? && IsDoor(db, op, rid)
  {
    if Do(db, op).Ok? {
      var after := Do(db, op).value;
      match op
      case DoOffer(_, _, _) => OffersRevive(db, op, after, rid);
      case DoWriteOffer(_, _, _) => OffersRevive(db, op, after, rid);
      case DoReplace(_, _, _, _) => OffersRevive(db, op, after, rid);
      case DoRespond(_, _, _) => AnswersRevive(db, op, after, rid);
      case DoStart(_, _, _) => AnswersRevive(db, op, after, rid);
      case DoComplete(_, _, _) => AnswersRevive(db, op, after, rid);
      case DoTerminate(_, _, _, _) => AnswersRevive(db, op, after, rid);
      case DoLog(pid, day, present, reasonGiven) => LogRevives(db, pid, day, present, reasonGiven, after, rid);
      case DoCancel(r, reasonGiven, employer, n) => CancellingRevivesNobody(db, r, reasonGiven, employer, n, after, rid);
      case _ => assert after.placements == db.placements;
    }
  }

  /** Some step of the run goes through one of the doors. */
  ghost predicate ThroughADoor(db: Db, ops: seq<Op>, rid: Id)
    decreases |ops|
  {
    ops != [] && ((Do(db, ops[0]).Ok? && IsDoor(db, ops[0], rid)) || ThroughADoor(Step(db, ops[0]), ops[1..], rid))
  }

  lemma {:induction false} NobodyWithoutADoor(db: Db, ops: seq<Op>, rid: Id)
    requires NobodyLiveOn(db.placements, rid) && !ThroughADoor(db, ops, rid)
    ensures NobodyLiveOn(Run(db, ops).placements, rid)
    decreases |ops|
  {
    if ops != [] {
      WorkComesToLifeThroughThreeDoors(db, ops[0], rid);
      assert forall i: Id :: LiveOn(Step(db, ops[0]).placements, i, rid) ==> Revives(db, Step(db, ops[0]), rid);
      NobodyWithoutADoor(Step(db, ops[0]), ops[1..], rid);
    }
  }

  /** At no point of the run is anybody expected at the work. */
  ghost predicate NobodyEverLiveOn(db: Db, ops: seq<Op>, rid: Id)
    decreases |ops|
  {
    NobodyLiveOn(db.placements, rid) && (ops != [] ==> NobodyEverLiveOn(Step(db, ops[0]), ops[1..], rid))
  }

  lemma {:induction false} EverMeansADoor(db: Db, ops: seq<Op>, rid: Id)
    requires NobodyLiveOn(db.placements, rid)
    ensures NobodyEverLiveOn(db, ops, rid) <==> !ThroughADoor(db, ops, rid)
    decreases |ops|
  {
    if ops != [] {
      var next := Step(db, ops[0]);
      WorkComesToLifeThroughThreeDoors(db, ops[0], rid);
      if NobodyLiveOn(next.placements, rid) {
        EverMeansADoor(next, ops[1..], rid);
      } else {
        var i: Id :| LiveOn(next.placements, i, rid);
        assert !LiveOn(db.placements, i, rid);
      }
    }
  }

  /** Nobody is expected at withdrawn work, right after the withdrawal; and over every run from
      there, nobody ever is exactly when no step goes through one of the doors. */
  lemma AWithdrawalHoldsExactlyWithoutTheDoors(db: Db, rid: Id, reasonGiven: bool, employer: Option<Id>, n: Notice,
                                               after: Db, ops: seq<Op>)
    requires CancelRequest(db, rid, reasonGiven, employer, n) == Ok(after)
    ensures NobodyLiveOn(after.placements, rid)
    ensures NobodyEverLiveOn(after, ops, rid) <==> !ThroughADoor(after, ops, rid)
  {
    EverMeansADoor(after, ops, rid);
  }

  // ---- each door opens on a withdrawn request ------------------------------------------------------

  lemma WithdrawnScene(was: Db) returns (db: Db)
    requires Scene(was, NoShow) && was.cancelled == {}
    ensures Scene(db, NoShow) && 0 in db.cancelled
  {
    var op := DoCancel(0, true, None, QUIETLY);
    StepStaysReachable(was, op);
    EveryOperationGoesInExactlyWhen(was, op);
    db := Step(was, op);
  }

  /** The request is withdrawn, and this step makes somebody live on it. */
  ghost predicate Opens(db: Db, op: Op) {
    && 0 in db.cancelled && NobodyLiveOn(db.placements, 0) && IsDoor(db, op, 0)
    && Revives(db, Step(db, op), 0) && 0 in Step(db, op).cancelled && Reachable(Step(db, op))
  }

  lemma DoorOpens(db: Db, op: Op)
    requires Scene(db, NoShow) && 0 in db.cancelled && IsDoor(db, op, 0) && GoesIn(db, op)
    requires op.DoOffer? || op.DoReplace? || op.DoLog?
    ensures Opens(db, op)
  {
    EveryOperationGoesInExactlyWhen(db, op);
    WorkComesToLifeThroughThreeDoors(db, op, 0);
    StepStaysReachable(db, op);
  }

  /** All three doors do open: some reachable state has a withdrawn request, its no-show, and a
      second person, and there the offer, the cover and the correction each go in. */
  lemma EveryDoorOpens()
    ensures exists db: Db ::
      && Opens(db, DoOffer(0, Somebody(1), QUIETLY))
      && Opens(db, DoReplace(0, Somebody(1), None, QUIETLY))
      && Opens(db, DoLog(0, 1, true, true))
  {
    var offered := OfferedScene();
    var accepted := AnsweredScene(offered);
    var failed := FailedScene(accepted);
    var db := WithdrawnScene(failed);
    AnybodyPasses(1);
    RightsAreNamedInOrder(Somebody(1), WORK);
    PassingIsMayBeOffered(db, 0, Somebody(1));
    assert Somebody(1).(committed := false) == Somebody(1);
    DoorOpens(db, DoOffer(0, Somebody(1), QUIETLY));
    DoorOpens(db, DoReplace(0, Somebody(1), None, QUIETLY));
    DoorOpens(db, DoLog(0, 1, true, true));
  }
}
