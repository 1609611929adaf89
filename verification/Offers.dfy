/** Offers that race: each coordinator reads the matcher's answer, anything may happen, and only
    then comes the insert, on the tables as they are by that time. */
module Offers {
  import opened Base
  import opened Shifts
  import opened Matching
  import opened Lifecycle
  import opened Invariants
  import opened Steps
  import opened Runs
  import opened Conditions

  /** What a coordinator has read: the matcher passed this candidate on those tables. */
  datatype Reading = Reading(rid: Id, facts: Candidate, n: Notice, tables: Db)

  /** The tables, what each session still holds, and for every offer made the reading behind it. */
  datatype Floor = Floor(db: Db, sessions: map<Id, Reading>, made: map<Id, Reading>)

  datatype Move =
    | Look(session: Id, rid: Id, facts: Candidate, n: Notice)
    | Write(session: Id)
    | Other(op: Op)

  /** Everything but an offer may happen between the reading and the write. */
  predicate Between(op: Op) { !op.DoOffer? && !op.DoWriteOffer? }

  function OpOf(r: Reading): Op { DoWriteOffer(r.rid, r.facts.id, r.n) }

  function Make(f: Floor, m: Move): Floor {
    match m
    case Look(s, rid, facts, n) =>
      if Passes(f.db, rid, facts) then f.(sessions := f.sessions[s := Reading(rid, facts, n, f.db)]) else f
    case Write(s) =>
      if s !in f.sessions then f
      else
        var r := f.sessions[s];
        var after := Step(f.db, OpOf(r));
        Floor(after, f.sessions - {s},
              if Do(f.db, OpOf(r)).Ok? then f.made[|f.db.placements| := r] else f.made)
    case Other(op) => if Between(op) then f.(db := Step(f.db, op)) else f
  }

  function MakeAll(f: Floor, moves: seq<Move>): Floor
    decreases |moves|
  {
    if moves == [] then f else MakeAll(Make(f, moves[0]), moves[1..])
  }

  const Opening := Floor(Empty, map[], map[])

  // ---- every interleaving is some run of whole operations -------------------------------------

  lemma MoveIsAStep(f: Floor, m: Move)
    ensures Make(f, m).db == f.db || exists op :: Make(f, m).db == Step(f.db, op)
  {
    match m
    case Look(_, _, _, _) =>
    case Write(s) => if s in f.sessions { assert Make(f, m).db == Step(f.db, OpOf(f.sessions[s])); }
    case Other(op) => if Between(op) { assert Make(f, m).db == Step(f.db, op); }
  }

  lemma MoveStaysReachable(f: Floor, m: Move)
    requires Reachable(f.db)
    ensures Reachable(Make(f, m).db)
  {
    MoveIsAStep(f, m);
    if Make(f, m).db != f.db {
      var op :| Make(f, m).db == Step(f.db, op);
      StepStaysReachable(f.db, op);
    }
  }

  /** However many sessions race, the tables are ones the operations reach one after another, so
      everything proved of reachable tables holds of them. */
  lemma {:induction false} RacesReachNothingNew(f: Floor, moves: seq<Move>)
    requires Reachable(f.db)
    ensures Reachable(MakeAll(f, moves).db)
    decreases |moves|
  {
    if moves != [] {
      MoveStaysReachable(f, moves[0]);
      RacesReachNothingNew(Make(f, moves[0]), moves[1..]);
    }
  }

  /** The promise itself, over every interleaving. */
  lemma NoRaceDoubleBooks(moves: seq<Move>, i: Id, j: Id)
    requires i < |MakeAll(Opening, moves).db.placements| && j < |MakeAll(Opening, moves).db.placements|
    requires var ps := MakeAll(Opening, moves).db.placements;
      && ps[i].candidate == ps[j].candidate && ps[i].request != ps[j].request
      && Live(ps[i].status) && Live(ps[j].status)
    ensures var db := MakeAll(Opening, moves).db;
      && db.placements[i].request < |db.requests| && db.placements[j].request < |db.requests|
      && BookedApart(db.requests[db.placements[i].request].hours, db.requests[db.placements[j].request].hours)
  {
    assert Run(Empty, []) == Empty;
    RacesReachNothingNew(Opening, moves);
    NobodyIsDoubleBooked(MakeAll(Opening, moves).db, i, j);
  }

  // ---- who gets an offer ----------------------------------------------------------------------

  /** The offer is the one that was read, and on the tables read the person
      might be offered the work. */
  ghost predicate Backs(r: Reading, p: Placement) {
    && p.request == r.rid && p.candidate == r.facts.id && p.covers.None?
    && MayBeOffered(r.tables, r.rid, r.facts)
  }

  /** Every offer that is not a cover goes back to a reading; no reading is held that failed. */
  ghost predicate Backed(f: Floor) {
    && (forall s :: s in f.sessions ==> MayBeOffered(f.sessions[s].tables, f.sessions[s].rid, f.sessions[s].facts))
    && (forall i :: 0 <= i < |f.db.placements| && f.db.placements[i].covers.None? ==>
          i in f.made && Backs(f.made[i], f.db.placements[i]))
    && (forall i :: i in f.made ==> i < |f.db.placements|)
  }

  /** Whatever rows an operation adds are covers. */
  ghost predicate AddsCovers(db: Db, after: Db) {
    forall i :: |db.placements| <= i < |after.placements| ==> after.placements[i].covers.Some?
  }

  lemma OtherAddsNoOffer(db: Db, op: Op)
    requires Between(op)
    ensures AddsCovers(db, Step(db, op))
  {
    if Do(db, op).Ok? {
      var after := Do(db, op).value;
      match op
      case DoCancel(rid, reasonGiven, employer, n) => CancelKeepsLength(db, rid, reasonGiven, employer, n, after);
      case DoStart(pid, day, n) => StartKeepsLength(db, pid, day, n, after);
      case DoReplace(failed, facts, pay, n) => ReplaceAddsACover(db, failed, facts, pay, n, after);
      case DoLog(pid, day, present, reasonGiven) => LogKeepsLength(db, pid, day, present, reasonGiven, after);
      case _ =>
    }
  }

  lemma ReplaceAddsACover(db: Db, failed: Id, facts: Candidate, pay: Option<int>, n: Notice, after: Db)
    requires Replace(db, failed, facts, pay, n) == Ok(after)
    ensures AddsCovers(db, after)
  {
  }

  lemma LogKeepsLength(db: Db, pid: Id, day: int, present: bool, reasonGiven: bool, after: Db)
    requires LogAttendance(db, pid, day, present, reasonGiven) == Ok(after)
    ensures |after.placements| == |db.placements|
  {
  }

  lemma CancelKeepsLength(db: Db, rid: Id, reasonGiven: bool, employer: Option<Id>, n: Notice, after: Db)
    requires CancelRequest(db, rid, reasonGiven, employer, n) == Ok(after)
    ensures |after.placements| == |db.placements|
  {
  }

  lemma StartKeepsLength(db: Db, pid: Id, day: int, n: Notice, after: Db)
    requires Start(db, pid, day, n) == Ok(after)
    ensures |after.placements| == |db.placements|
  {
    StartedKeepsTables(Refresh(SetStatus(db, pid, Active).value, db.placements[pid].candidate), pid, day, n);
  }

  /** Placements that only moved their status are backed as before. */
  lemma StillBacked(f: Floor, after: Db)
    requires Backed(f) && MovesOnly(f.db, after)
    ensures forall i :: 0 <= i < |f.db.placements| && after.placements[i].covers.None? ==>
      i in f.made && Backs(f.made[i], after.placements[i])
  {
    forall i | 0 <= i < |f.db.placements| && after.placements[i].covers.None?
      ensures i in f.made && Backs(f.made[i], after.placements[i])
    {
      assert OneMove(f.db.placements[i], after.placements[i]);
      assert Backs(f.made[i], f.db.placements[i]);
    }
  }

  lemma WrittenRow(db: Db, r: Reading, after: Db)
    requires Do(db, OpOf(r)) == Ok(after) && MayBeOffered(r.tables, r.rid, r.facts)
    ensures |after.placements| == |db.placements| + 1 && Backs(r, after.placements[|db.placements|])
  {
  }

  lemma OneMoreBacked(f: Floor, s: Id, after: Db)
    requires Backed(f) && s in f.sessions && MovesOnly(f.db, after) && |after.placements| == |f.db.placements| + 1
    requires Backs(f.sessions[s], after.placements[|f.db.placements|])
    ensures Backed(Floor(after, f.sessions - {s}, f.made[|f.db.placements| := f.sessions[s]]))
  {
    StillBacked(f, after);
  }

  lemma WriteStaysBacked(f: Floor, s: Id)
    requires Backed(f) && s in f.sessions
    ensures Backed(Make(f, Write(s)))
  {
    var r := f.sessions[s];
    StepMovesOnly(f.db, OpOf(r));
    if Do(f.db, OpOf(r)).Ok? {
      var after := Do(f.db, OpOf(r)).value;
      WrittenRow(f.db, r, after);
      OneMoreBacked(f, s, after);
    }
  }

  lemma MoveStaysBacked(f: Floor, m: Move)
    requires Backed(f)
    ensures Backed(Make(f, m))
  {
    match m
    case Look(_, rid, facts, _) => PassingIsMayBeOffered(f.db, rid, facts);
    case Write(s) => if s in f.sessions { WriteStaysBacked(f, s); }
    case Other(op) =>
      if Between(op) {
        StepMovesOnly(f.db, op);
        StillBacked(f, Step(f.db, op));
        OtherAddsNoOffer(f.db, op);
      }
  }

  lemma {:induction false} RunStaysBacked(f: Floor, moves: seq<Move>)
    requires Backed(f)
    ensures Backed(MakeAll(f, moves))
    decreases |moves|
  {
    if moves != [] {
      MoveStaysBacked(f, moves[0]);
      RunStaysBacked(Make(f, moves[0]), moves[1..]);
    }
  }

  // ---- and when it was read ---------------------------------------------------------------------

  lemma {:induction false} LastMove(f: Floor, moves: seq<Move>)
    requires moves != []
    ensures MakeAll(f, moves) == Make(MakeAll(f, moves[..|moves| - 1]), moves[|moves| - 1])
    decreases |moves|
  {
    if |moves| > 1 {
      LastMove(Make(f, moves[0]), moves[1..]);
      assert moves[1..][..|moves| - 2] == moves[..|moves| - 1][1..];
    }
  }

  /** These tables are what the run had come to after some of its moves. */
  ghost predicate ReadDuring(r: Reading, moves: seq<Move>) {
    exists k :: 0 <= k <= |moves| && r.tables == MakeAll(Opening, moves[..k]).db
  }

  /** Every reading held, and every reading behind an offer, is of the run's own tables, and the
      offer was not yet among them. */
  ghost predicate AllReadDuring(held: map<Id, Reading>, made: map<Id, Reading>, rows: nat, moves: seq<Move>) {
    && (forall s :: s in held ==> ReadDuring(held[s], moves) && |held[s].tables.placements| <= rows)
    && (forall i :: i in made ==> ReadDuring(made[i], moves) && |made[i].tables.placements| <= i)
  }

  lemma ReadEarlier(r: Reading, moves: seq<Move>)
    requires moves != [] && ReadDuring(r, moves[..|moves| - 1])
    ensures ReadDuring(r, moves)
  {
    var front := moves[..|moves| - 1];
    var k :| 0 <= k <= |front| && r.tables == MakeAll(Opening, front[..k]).db;
    assert front[..k] == moves[..k];
  }

  /** Readings held and made stay readings of the run, however it goes on. */
  lemma ReadingsStay(held: map<Id, Reading>, made: map<Id, Reading>, rows: nat, more: nat, moves: seq<Move>)
    requires moves != [] && AllReadDuring(held, made, rows, moves[..|moves| - 1]) && rows <= more
    ensures AllReadDuring(held, made, more, moves)
  {
    forall s | s in held ensures ReadDuring(held[s], moves) { ReadEarlier(held[s], moves); }
    forall i | i in made ensures ReadDuring(made[i], moves) { ReadEarlier(made[i], moves); }
  }

  lemma WrittenReadingStays(held: map<Id, Reading>, made: map<Id, Reading>, rows: nat, more: nat, moves: seq<Move>, s: Id)
    requires moves != [] && AllReadDuring(held, made, rows, moves[..|moves| - 1]) && rows <= more && s in held
    ensures AllReadDuring(held - {s}, made[rows := held[s]], more, moves)
    ensures AllReadDuring(held - {s}, made, more, moves)
  {
    ReadingsStay(held, made, rows, more, moves);
  }

  lemma NewReading(f: Floor, moves: seq<Move>, s: Id, r: Reading)
    requires moves != [] && f == MakeAll(Opening, moves[..|moves| - 1]) && r.tables == f.db
    requires AllReadDuring(f.sessions, f.made, |f.db.placements|, moves[..|moves| - 1])
    ensures AllReadDuring(f.sessions[s := r], f.made, |f.db.placements|, moves)
  {
    ReadingsStay(f.sessions, f.made, |f.db.placements|, |f.db.placements|, moves);
    assert ReadDuring(r, moves);
  }

  lemma MoveReadsTheRun(f: Floor, m: Move, moves: seq<Move>)
    requires moves != [] && m == moves[|moves| - 1] && f == MakeAll(Opening, moves[..|moves| - 1])
    requires AllReadDuring(f.sessions, f.made, |f.db.placements|, moves[..|moves| - 1])
    ensures var g := Make(f, m); AllReadDuring(g.sessions, g.made, |g.db.placements|, moves)
  {
    var rows, more := |f.db.placements|, |Make(f, m).db.placements|;
    PlacementsOnlyGrow(f, m);
    ReadingsStay(f.sessions, f.made, rows, more, moves);
    match m
    case Look(s, rid, facts, n) => NewReading(f, moves, s, Reading(rid, facts, n, f.db));
    case Write(s) => if s in f.sessions { WrittenReadingStays(f.sessions, f.made, rows, more, moves, s); }
    case Other(_) =>
  }

  lemma PlacementsOnlyGrow(f: Floor, m: Move)
    ensures |f.db.placements| <= |Make(f, m).db.placements|
  {
    match m
    case Look(_, _, _, _) =>
    case Write(s) => if s in f.sessions { StepMovesOnly(f.db, OpOf(f.sessions[s])); }
    case Other(op) => StepMovesOnly(f.db, op);
  }

  lemma {:induction false} RunReadsItself(moves: seq<Move>)
    ensures var f := MakeAll(Opening, moves); AllReadDuring(f.sessions, f.made, |f.db.placements|, moves)
    decreases |moves|
  {
    if moves != [] {
      RunReadsItself(moves[..|moves| - 1]);
      LastMove(Opening, moves);
      MoveReadsTheRun(MakeAll(Opening, moves[..|moves| - 1]), moves[|moves| - 1], moves);
    }
  }

  /** Over every interleaving: each offer was made to somebody who passed all three filters, and
      was free, on tables this very run had come to before the offer was written. */
  lemma OffersGoOnlyToThoseWhoPassed(moves: seq<Move>, i: Id)
    requires i < |MakeAll(Opening, moves).db.placements| && MakeAll(Opening, moves).db.placements[i].covers.None?
    ensures var f := MakeAll(Opening, moves);
      && i in f.made && Backs(f.made[i], f.db.placements[i])
      && exists k :: 0 <= k <= |moves| && f.made[i].tables == MakeAll(Opening, moves[..k]).db
           && |MakeAll(Opening, moves[..k]).db.placements| <= i
  {
    RunStaysBacked(Opening, moves);
    RunReadsItself(moves);
    var f := MakeAll(Opening, moves);
    var k :| 0 <= k <= |moves| && f.made[i].tables == MakeAll(Opening, moves[..k]).db;
  }

  // ---- what the insert adds to the reading ---------------------------------------------------------

  /** On the very tables that were read, only a repeat of the same offer is refused. */
  lemma AFreshReadingIsRefusedOnlyForARepeat(db: Db, rid: Id, facts: Candidate, n: Notice)
    requires Passes(db, rid, facts)
    ensures Offer(db, rid, facts, n).Ok? <==> !OnRequestAlready(db.placements, OfferRow(db, rid, facts.id))
    ensures Offer(db, rid, facts, n).Err? ==> Offer(db, rid, facts, n) == Err(OfferedBefore)
  {
    assert HardExclusion in FILTERS;
    assert !GuardRefuses(db.requests, db.placements, |db.placements|, OfferRow(db, rid, facts.id));
  }

  /** Two sessions read the same tables and choose one candidate for two requests that clash.
      Both readings pass. Whoever writes second is refused and the tables stay as they were;
      the insert without the guard would have promised the candidate twice. */
  lemma OnlyTheFirstOfTwoClashingReadingsIsWritten(db: Db, a: Reading, b: Reading, after: Db)
    requires Inv(db) && Passes(db, a.rid, a.facts) && Passes(db, b.rid, b.facts)
    requires a.facts.id == b.facts.id && a.rid != b.rid
    requires Clash(db.requests[a.rid].hours, db.requests[b.rid].hours)
    requires Do(db, OpOf(a)) == Ok(after)
    ensures Do(after, OpOf(b)) == Err(Clashes) && Step(after, OpOf(b)) == after
    ensures b.rid < |after.requests|
    ensures !NoDoubleBooking(after.requests, after.placements + [OfferRow(after, b.rid, b.facts.id)])
  {
    var first := OfferRow(db, a.rid, a.facts.id);
    assert after.placements == db.placements + [first] && after.requests == db.requests;
    var second := OfferRow(after, b.rid, b.facts.id);
    var n := |db.placements|;
    assert after.placements[n] == first && Collide(after.requests, first, second);
    var unguarded := after.placements + [second];
    assert unguarded[n] == first && unguarded[n + 1] == second;
    assert Live(unguarded[n].status) && Live(unguarded[n + 1].status);
  }
}
