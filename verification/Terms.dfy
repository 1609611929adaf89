/** What people are paid: the terms a placement is made at, and that they follow the work. */
module Terms {
  import opened Base
  import opened Matching
  import opened Lifecycle
  import opened Invariants
  import opened Runs

  /** The row this operation adds: who it is for, on what, at what pay. */
  ghost predicate IsRowOf(db: Db, op: Op, p: Placement) {
    && p.status == Offered && p.request < |db.requests|
    && match op
       case DoOffer(rid, facts, _) => IsOfferOf(db, p, rid, facts.id)
       case DoWriteOffer(rid, cid, _) => IsOfferOf(db, p, rid, cid)
       case DoReplace(failed, facts, pay, _) => IsCoverFor(db, p, failed, facts.id, pay)
       case _ => false
  }

  ghost predicate IsOfferOf(db: Db, p: Placement, rid: Id, cid: Id) {
    && p.request == rid && p.candidate == cid && p.covers.None?
    && rid < |db.requests| && p.payRwf == db.requests[rid].payRwf && p.payUnit == db.requests[rid].payUnit
  }

  /** The same work in the same unit, at the pay agreed for it, or where none or nothing was
      agreed, at what the absent worker was to get. */
  ghost predicate IsCoverFor(db: Db, p: Placement, failed: Id, cid: Id, pay: Option<int>) {
    && failed < |db.placements| && p.covers == Some(failed) && p.candidate == cid
    && p.request == db.placements[failed].request && p.payUnit == db.placements[failed].payUnit
    && p.payRwf > 0
    && (if pay in {None, Some(0)} then p.payRwf == db.placements[failed].payRwf else pay == Some(p.payRwf))
  }

  ghost predicate AddsItsRow(db: Db, op: Op, after: Db) {
    forall i :: |db.placements| <= i < |after.placements| ==> IsRowOf(db, op, after.placements[i])
  }

  lemma CoverAddsItsRow(db: Db, failed: Id, cid: Id, pay: Option<int>, n: Notice, after: Db)
    requires failed < |db.placements| && CoverSent(db, failed, cid, pay, n) == Ok(after)
    ensures |after.placements| == |db.placements| + 1
    ensures var p := after.placements[|db.placements|]; p.status == Offered && IsCoverFor(db, p, failed, cid, pay)
  {
  }

  lemma WriteAddsItsRow(db: Db, rid: Id, cid: Id, n: Notice, after: Db)
    requires WriteOffer(db, rid, cid, n) == Ok(after)
    ensures |after.placements| == |db.placements| + 1
    ensures var p := after.placements[|db.placements|]; p.status == Offered && IsOfferOf(db, p, rid, cid)
  {
  }

  lemma StartAddsNothing(db: Db, pid: Id, day: int, n: Notice, after: Db)
    requires Start(db, pid, day, n) == Ok(after)
    ensures |after.placements| == |db.placements|
  {
    StartedKeepsTables(Begun(SetStatus(db, pid, Active).value, pid, day), pid, day, n);
  }

  lemma LogAddsNothing(db: Db, pid: Id, day: int, present: bool, reasonGiven: bool, after: Db)
    requires LogAttendance(db, pid, day, present, reasonGiven) == Ok(after)
    ensures |after.placements| == |db.placements|
  {
  }

  lemma NothingAdded(db: Db, op: Op, after: Db)
    requires Do(db, op) == Ok(after) && !op.DoOffer? && !op.DoWriteOffer? && !op.DoReplace?
    ensures |after.placements| == |db.placements|
  {
    match op
    case DoStart(pid, day, n) => StartAddsNothing(db, pid, day, n, after);
    case DoLog(pid, day, present, reasonGiven) => LogAddsNothing(db, pid, day, present, reasonGiven, after);
    case _ =>
  }

  lemma OneRowIsItsRow(db: Db, op: Op, after: Db)
    requires |after.placements| == |db.placements| + 1 && IsRowOf(db, op, after.placements[|db.placements|])
    ensures AddsItsRow(db, op, after)
  {
  }

  lemma OffersAddTheirRow(db: Db, op: Op, after: Db)
    requires Inv(db) && Do(db, op) == Ok(after) && (op.DoOffer? || op.DoWriteOffer? || op.DoReplace?)
    ensures |after.placements| == |db.placements| + 1 && IsRowOf(db, op, after.placements[|db.placements|])
  {
    match op
    case DoOffer(rid, facts, n) => WriteAddsItsRow(db, rid, facts.id, n, after);
    case DoWriteOffer(rid, cid, n) => WriteAddsItsRow(db, rid, cid, n, after);
    case DoReplace(failed, facts, pay, n) => CoverAddsItsRow(db, failed, facts.id, pay, n, after);
  }

  /** An offer or a cover that goes in adds one row, at its terms; nothing else adds any. */
  lemma EveryRowIsAddedAtItsTerms(db: Db, op: Op, after: Db)
    requires Inv(db) && Do(db, op) == Ok(after)
    ensures AddsItsRow(db, op, after)
    ensures |after.placements| == |db.placements| + (if op.DoOffer? || op.DoWriteOffer? || op.DoReplace? then 1 else 0)
  {
    if op.DoOffer? || op.DoWriteOffer? || op.DoReplace? {
      OffersAddTheirRow(db, op, after);
      OneRowIsItsRow(db, op, after);
    } else {
      NothingAdded(db, op, after);
    }
  }

  /** Every placement is paid in its request's unit, and unless it is a cover at its request's pay. */
  ghost predicate PaidAsPosted(db: Db) {
    forall i :: 0 <= i < |db.placements| ==> AtTheTerms(db, db.placements[i])
  }

  ghost predicate AtTheTerms(db: Db, p: Placement) {
    && p.request < |db.requests| && p.payUnit == db.requests[p.request].payUnit
    && (p.covers.None? ==> p.payRwf == db.requests[p.request].payRwf)
  }

  lemma StepPaysAsPosted(db: Db, op: Op)
    requires Inv(db) && PaidAsPosted(db)
    ensures PaidAsPosted(Step(db, op))
  {
    var after := Step(db, op);
    StepMovesOnly(db, op);
    if Do(db, op).Ok? { EveryRowIsAddedAtItsTerms(db, op, after); }
    forall i | 0 <= i < |after.placements| ensures AtTheTerms(after, after.placements[i]) {
      if i < |db.placements| {
        assert OneMove(db.placements[i], after.placements[i]) && AtTheTerms(db, db.placements[i]);
      } else {
        assert IsRowOf(db, op, after.placements[i]);
        if op.DoReplace? { assert AtTheTerms(db, db.placements[op.failed]); }
      }
    }
  }

  lemma {:induction false} EverybodyIsPaidAsPosted(db: Db, ops: seq<Op>)
    requires Reachable(db) && PaidAsPosted(db)
    ensures PaidAsPosted(Run(db, ops))
    decreases |ops|
  {
    if ops != [] {
      ReachableIsSound(db);
      StepPaysAsPosted(db, ops[0]);
      StepStaysReachable(db, ops[0]);
      EverybodyIsPaidAsPosted(Step(db, ops[0]), ops[1..]);
    }
  }

  /** In every reachable state the terms are those that were posted. */
  lemma ReachablePaysAsPosted(db: Db, i: Id)
    requires Reachable(db) && i < |db.placements|
    ensures AtTheTerms(db, db.placements[i])
  {
    var ops :| Run(Empty, ops) == db;
    assert Run(Empty, []) == Empty;
    EverybodyIsPaidAsPosted(Empty, ops);
  }
}
