/** The three places that judge a person's right to a shift: the matcher, the search for cover,
    and the write that sends somebody as cover. */
module Rights {
  import opened Base
  import opened Matching
  import opened Cover
  import opened Lifecycle
  import opened Invariants
  import opened Runs

  /** The shift somebody did not come to. */
  function FailedShift(db: Db, failed: Id): WorkRequest
    requires failed < |db.placements| && db.placements[failed].request < |db.requests|
  {
    db.requests[db.placements[failed].request]
  }

  /** The write asks for rights and nothing else of the person: it refuses for the person exactly
      when one of the four rights fails or they have left the pool. It is given no clock, and
      neither skills nor free time nor other work changes the answer. */
  lemma TheWriteRefusesExactlyForRights(db: Db, failed: Id, c: Candidate, pay: Option<int>, n: Notice)
    requires Reachable(db) && failed < |db.placements| && db.placements[failed].status == NoShow
    ensures db.placements[failed].request < |db.requests|
    ensures var r := FailedShift(db, failed);
      && Sane(r)
      && (Replace(db, failed, c, pay, n) == Err(NotEligible) <==>
            !InPool(db, c.id)
            || !(MeetsMinimumAge(c, r.hours.startsOn) && c.placementConsent && TransportFailure(c, r).None?
                 && SafetyFailure(c, r).None?))
    ensures var other := c.(committed := !c.committed, skillScores := map[], availability := []);
      Replace(db, failed, other, pay, n) == Err(NotEligible) <==> Replace(db, failed, c, pay, n) == Err(NotEligible)
  {
    ReachableIsSound(db);
    RightsAreTheFourTests(c, FailedShift(db, failed));
    RightsAreTheFourTests(c.(committed := !c.committed, skillScores := map[], availability := []), FailedShift(db, failed));
  }

  /** Whoever the matcher lets through and whoever the search offers is cleared by the write. If
      the search knew of every commitment, sending one of its people fails only because they were
      already offered this request, or somebody else is on the table. */
  lemma WhoeverIsNamedCanBeSent(db: Db, failed: Id, c: Candidate, remaining: int, pay: Option<int>, n: Notice)
    requires Reachable(db) && failed < |db.placements| && db.placements[failed].status == NoShow
    requires InPool(db, c.id)
    ensures db.placements[failed].request < |db.requests| && Sane(FailedShift(db, failed))
    ensures Survives(c, FailedShift(db, failed)) || Reaches(c, FailedShift(db, failed), remaining) ==>
      Replace(db, failed, c, pay, n) != Err(NotEligible)
    ensures var row := CoverRow(db, failed, c.id, pay);
      row.payRwf > 0 && Reaches(c, FailedShift(db, failed), remaining)
      && c.committed == GuardRefuses(db.requests, db.placements, |db.placements|, row) ==>
        (Replace(db, failed, c, pay, n).Ok? <==>
          !OnRequestAlready(db.placements, row) && !CoverStanding(db.placements, row))
  {
    ReachableIsSound(db);
    MatcherAgreesOnRights(c, FailedShift(db, failed));
  }

  /** The person who failed is never sent to cover their own absence. */
  lemma NobodyCoversThemselves(db: Db, failed: Id, c: Candidate, pay: Option<int>, n: Notice)
    requires failed < |db.placements| && c.id == db.placements[failed].candidate
    ensures Replace(db, failed, c, pay, n).Err?
  {
    assert OnRequestAlready(db.placements, CoverRow(db, failed, c.id, pay));
  }
}
