/** Cover is sent in two statements with no lock between them: the no-show is looked at, and then
    the cover is inserted. What the record keeps of the guarantee depends on nothing coming
    between. */
module StaleCover {
  import opened Base
  import opened Matching
  import opened Lifecycle
  import opened Invariants
  import opened Steps
  import opened Runs
  import opened Conditions
  import opened Scenes

  /** The insert half of sending cover, on the tables as they are by then. The record of who
      stands in for whom, and with it everything the operations keep, is kept exactly when the
      placement is still a no-show. */
  lemma TheRecordHoldsExactlyWhileItIsANoShow(db: Db, failed: Id, cid: Id, pay: Option<int>, n: Notice, after: Db)
    requires Inv(db) && failed < |db.placements| && cid < |db.people|
    requires CoverSent(db, failed, cid, pay, n) == Ok(after)
    ensures Chained(after.placements) <==> db.placements[failed].status == NoShow
    ensures Inv(after) <==> db.placements[failed].status == NoShow
  {
    if db.placements[failed].status == NoShow {
      CoverKeepsInv(db, failed, cid, pay, n, after);
    } else {
      var new_ := |db.placements|;
      assert after.placements == db.placements + [CoverRow(db, failed, cid, pay)];
      assert after.placements[new_].covers == Some(failed) && !IsCoverOf(after.placements, new_, failed);
    }
  }

  lemma NewRowKeepsUniqueness(ps: seq<Placement>, row: Placement)
    requires OncePerRequest(ps) && OneStandingCover(ps) && !OnRequestAlready(ps, row) && !CoverStanding(ps, row)
    ensures OncePerRequest(ps + [row]) && OneStandingCover(ps + [row])
  {
  }

  /** Nobody is promised twice even so, nobody is sent twice to one request, and one cover is on the
      table: the trigger and the indexes look at the insert itself. */
  lemma AStaleCoverStillBooksNobodyTwice(db: Db, row: Placement, after: Db)
    requires Inv(db) && Insert(db, row) == Ok(after)
    ensures NoDoubleBooking(after.requests, after.placements)
    ensures OncePerRequest(after.placements) && OneStandingCover(after.placements)
  {
    GuardedRowKeepsBooking(db.requests, db.placements, |db.placements|, row);
    NewRowKeepsUniqueness(db.placements, row);
  }

  lemma CorrectedScene(was: Db) returns (db: Db)
    requires Scene(was, NoShow)
    ensures Scene(db, Active) && db == Step(was, DoLog(0, 1, true, true))
  {
    var op := DoLog(0, 1, true, true);
    StepStaysReachable(was, op);
    EveryOperationGoesInExactlyWhen(was, op);
    db := Step(was, op);
  }

  lemma TheCoverStillGoesIn(later: Db) returns (after: Db)
    requires Scene(later, Active)
    ensures CoverSent(later, 0, 1, None, QUIETLY) == Ok(after)
    ensures |after.placements| == 2 && Live(after.placements[0].status)
    ensures after.placements[1].covers == Some(0) && !Chained(after.placements)
  {
    ReachableIsSound(later);
    InsertGoesInExactlyWhen(later, CoverRow(later, 0, 1, None));
    after := CoverSent(later, 0, 1, None, QUIETLY).value;
    TheRecordHoldsExactlyWhileItIsANoShow(later, 0, 1, None, QUIETLY, after);
  }

  /** The cover was cleared on tables with a no-show, the worker was then found to have come, and
      the cover went in all the same. */
  ghost predicate SentTooLate(looked: Db, later: Db, after: Db) {
    && Scene(looked, NoShow) && ClearedForCover(looked, 0, Somebody(1))
    && later == Step(looked, DoLog(0, 1, true, true))
    && CoverSent(later, 0, 1, None, QUIETLY) == Ok(after)
  }

  /** It does happen. Two people then hold the work of one, and the record of an absence points at
      somebody who is there. */
  lemma ACorrectionBetweenLeavesTwo()
    ensures exists looked: Db, later: Db, after: Db ::
      && SentTooLate(looked, later, after) && |after.placements| == 2
      && Live(after.placements[0].status) && after.placements[1].covers == Some(0) && !Chained(after.placements)
  {
    var offered := OfferedScene();
    var accepted := AnsweredScene(offered);
    var looked := FailedScene(accepted);
    var later := CorrectedScene(looked);
    AnybodyPasses(1);
    var after := TheCoverStillGoesIn(later);
    assert SentTooLate(looked, later, after);
  }
}
