/** A small reachable state, for showing that what can happen does: one piece of work, two people,
    and the first of them offered it. */
module Scenes {
  import opened Base
  import opened Calendar
  import opened Shifts
  import opened Matching
  import opened Lifecycle
  import opened Runs
  import opened Conditions
  import O = Outbox

  const WORK := WorkRequest(0, Hours(Date(2026, 3, 2), None, None, None), 5000, PerDay, true, [])
  const QUIETLY := Notice(0, true, None, false)

  function Somebody(id: Id): Candidate {
    Candidate(id, F, None, Some(true), [], map[], {}, None, None, false, true, None, None, false, 0, 0.0, 0)
  }

  lemma AnybodyPasses(id: Id)
    ensures Sane(WORK) && InOrder(WORK.hours)
    ensures Survives(Somebody(id), WORK) && RightsExclusion(Somebody(id), WORK).None?
  {
    forall f | f in FILTERS ensures Check(f, Somebody(id), WORK).None? {
      match f case HardExclusion => case TransportViability => case Safety =>
    }
  }

  /** One piece of work, two people, and one placement of the first of them in this status. */
  ghost predicate Scene(db: Db, s: Status) {
    && Reachable(db) && db.requests == [WORK]
    && |db.people| == 2 && !Decided(db.people[1])
    && db.placements == [Placement(0, 0, s, 5000, PerDay, None)]
  }

  lemma OfferedScene() returns (db: Db)
    ensures Scene(db, Offered) && db.cancelled == {} && db.log == map[] && db.started == map[] && db.ended == map[]
    ensures forall i :: 0 <= i < |db.box| ==> db.box[i].template == O.PlacementOffer
  {
    AnybodyPasses(0);
    assert Run(Empty, []) == Empty;
    StepStaysReachable(Empty, DoPost(WORK));
    var a := Step(Empty, DoPost(WORK));
    StepStaysReachable(a, DoRegister);
    var b := Step(a, DoRegister);
    StepStaysReachable(b, DoRegister);
    var c := Step(b, DoRegister);
    StepStaysReachable(c, DoWriteOffer(0, 0, QUIETLY));
    db := Step(c, DoWriteOffer(0, 0, QUIETLY));
  }

  lemma AnsweredScene(was: Db) returns (db: Db)
    requires Scene(was, Offered)
    ensures Scene(db, Accepted) && db.cancelled == was.cancelled && db.log == was.log
  {
    StepStaysReachable(was, DoRespond(0, true, QUIETLY));
    EveryOperationGoesInExactlyWhen(was, DoRespond(0, true, QUIETLY));
    db := Step(was, DoRespond(0, true, QUIETLY));
  }

  lemma FailedScene(was: Db) returns (db: Db)
    requires Scene(was, Accepted) && was.log == map[]
    ensures Scene(db, NoShow) && db.cancelled == was.cancelled
  {
    var op := DoLog(0, 1, false, true);
    StepStaysReachable(was, op);
    EveryOperationGoesInExactlyWhen(was, op);
    db := Step(was, op);
  }
}
