/** The pay ledger: what is owed for which days, less what, and why. Days are day numbers. */
module Pay {
  import opened Base

  datatype Line = Line(kind: string, amount: int, note: string)

  datatype Claim = Claim(placement: Id, start: int, end: int, gross: int, deductions: int,
                         due: int, via: Option<string>, lines: seq<Line>)

  datatype PayRecord = PayRecord(placement: Id, start: int, end: int, gross: int, deductions: int,
                                 due: int, via: Option<string>, paidOn: Option<int>, confirmed: bool)

  datatype Booked = Booked(pay: Id, line: Line)

  datatype Ledger = Ledger(records: seq<PayRecord>, lines: seq<Booked>)

  datatype Refusal = BadPeriod | BadGross | BadDeductions | NotItemised | LinesDoNotAddUp | DueTooEarly
    | BadMethod | NoSuchPlacement | Overlaps | BadLine | NoSuchRecord | NobodyToTell

  const METHODS: set<string> := {"momo", "cash", "bank"}
  const KINDS: set<string> :=
    {"advance", "uniform", "equipment", "transport", "absence", "statutory", "damage", "other"}
  const NEEDS_EXPLANATION: set<string> := {"damage", "other"}

  predicate Space(c: char) { c in " \t\n\r" }

  function Strip(s: string): string {
    if s != "" && Space(s[0]) then Strip(s[1..])
    else if s != "" && Space(s[|s| - 1]) then Strip(s[..|s| - 1])
    else s
  }

  predicate GoodLine(l: Line) {
    && Strip(l.kind) in KINDS
    && l.amount > 0
    && (Strip(l.kind) in NEEDS_EXPLANATION ==> |Strip(l.note)| >= 10)
  }

  function Total(lines: seq<Line>): int {
    if lines == [] then 0 else Total(lines[..|lines| - 1]) + lines[|lines| - 1].amount
  }

  /** What can be told from the claim itself. */
  predicate WellFormed(c: Claim) {
    && c.start <= c.end
    && c.gross > 0
    && 0 <= c.deductions <= c.gross
    && (c.deductions != 0 ==> c.lines != [])
    && (c.lines != [] ==> Total(c.lines) == c.deductions)
    && c.start <= c.due
    && (c.via.Some? ==> c.via.value in METHODS)
  }

  predicate Itemised(c: Claim) {
    forall l :: l in c.lines ==> GoodLine(l)
  }

  /** No stored record of this placement shares a day with the claim. */
  predicate Free(records: seq<PayRecord>, c: Claim) {
    forall r :: r in records && r.placement == c.placement ==> !(r.start <= c.end && r.end >= c.start)
  }

  function RecordOf(c: Claim): PayRecord {
    PayRecord(c.placement, c.start, c.end, c.gross, c.deductions, c.due, c.via, None, false)
  }

  /** As it is stored: the kind and the note without the space around them. */
  function Tidy(l: Line): Line { Line(Strip(l.kind), l.amount, Strip(l.note)) }

  function Book(pay: Id, lines: seq<Line>): seq<Booked> {
    seq(|lines|, i requires 0 <= i < |lines| => Booked(pay, Tidy(lines[i])))
  }

  // ---- what a good line is ------------------------------------------------------------

  /** From one place to another stands t, with nothing but space before and after it. */
  ghost predicate Cut(s: string, t: string, from: nat, to: nat) {
    && from <= to <= |s| && t == s[from..to]
    && (forall k :: 0 <= k < from ==> Space(s[k])) && (forall k :: to <= k < |s| ==> Space(s[k]))
    && (from < to ==> !Space(s[from]) && !Space(s[to - 1]))
  }

  ghost predicate Trimmed(s: string, t: string) { exists from: nat, to: nat :: Cut(s, t, from, to) }

  lemma {:induction false} StripTrims(s: string)
    ensures Trimmed(s, Strip(s))
    decreases |s|
  {
    if s != "" && Space(s[0]) {
      StripTrims(s[1..]);
      TrimmedAfterSpace(s, Strip(s[1..]));
    } else if s != "" && Space(s[|s| - 1]) {
      StripTrims(s[..|s| - 1]);
      TrimmedBeforeSpace(s, Strip(s[..|s| - 1]));
    } else {
      assert Cut(s, s, 0, |s|);
    }
  }

  lemma TrimmedAfterSpace(s: string, t: string)
    requires s != "" && Space(s[0]) && Trimmed(s[1..], t)
    ensures Trimmed(s, t)
  {
    var rest := s[1..];
    var from: nat, to: nat :| Cut(rest, t, from, to);
    assert forall k :: 0 < k < |s| ==> s[k] == rest[k - 1];
    assert Cut(s, t, from + 1, to + 1);
  }

  lemma TrimmedBeforeSpace(s: string, t: string)
    requires s != "" && Space(s[|s| - 1]) && Trimmed(s[..|s| - 1], t)
    ensures Trimmed(s, t)
  {
    var front := s[..|s| - 1];
    var from: nat, to: nat :| Cut(front, t, from, to);
    assert forall k :: 0 <= k < |s| - 1 ==> s[k] == front[k];
    assert s[from..to] == front[from..to];
    assert Cut(s, t, from, to);
  }

  lemma OnlyOneTrim(s: string, t: string, u: string)
    requires Trimmed(s, t) && Trimmed(s, u)
    ensures t == u
  {
    var a: nat, b: nat :| Cut(s, t, a, b);
    var c: nat, d: nat :| Cut(s, u, c, d);
    if a < b { assert c <= a && b <= d; }
    if c < d { assert a <= c && d <= b; }
  }

  /** The kinds a deduction can be of, and what damage and other things need beside them. */
  ghost predicate OnTheList(kind: string, note: string) {
    || kind == "advance" || kind == "uniform" || kind == "equipment" || kind == "transport"
    || kind == "absence" || kind == "statutory"
    || ((kind == "damage" || kind == "other") && |note| >= 10)
  }

  lemma KindsAreOnTheList(kind: string, note: string)
    ensures kind in KINDS && (kind in NEEDS_EXPLANATION ==> |note| >= 10) <==> OnTheList(kind, note)
  {
    assert "advance"[0] == 'a' && "absence"[0] == 'a' && "advance"[1] == 'd' && "absence"[1] == 'b';
  }

  /** A line that can be answered: of a kind on the list, of a positive amount, and of damage and
      other things with a note of ten characters. The space around the words does not count. */
  ghost predicate Answerable(l: Line) {
    l.amount >= 1 && exists kind, note :: Trimmed(l.kind, kind) && Trimmed(l.note, note) && OnTheList(kind, note)
  }

  lemma GoodLinesAreAnswerable(l: Line)
    ensures GoodLine(l) <==> Answerable(l)
  {
    KindsAreOnTheList(Strip(l.kind), Strip(l.note));
    StripTrims(l.kind);
    StripTrims(l.note);
    forall kind, note | Trimmed(l.kind, kind) && Trimmed(l.note, note) ensures kind == Strip(l.kind) && note == Strip(l.note) {
      OnlyOneTrim(l.kind, kind, Strip(l.kind));
      OnlyOneTrim(l.note, note, Strip(l.note));
    }
  }

  lemma {:induction false} StripIsDone(s: string)
    ensures Strip(Strip(s)) == Strip(s)
    decreases |s|
  {
    if s != "" && Space(s[0]) { StripIsDone(s[1..]); }
    else if s != "" && Space(s[|s| - 1]) { StripIsDone(s[..|s| - 1]); }
  }

  lemma TidyStaysGood(l: Line)
    ensures GoodLine(Tidy(l)) <==> GoodLine(l)
  {
    StripIsDone(l.kind);
    StripIsDone(l.note);
  }

  // ---- what a sound ledger is ---------------------------------------------------

  ghost function Deducted(lines: seq<Booked>, pay: Id): int {
    if lines == [] then 0
    else
      var last := lines[|lines| - 1];
      Deducted(lines[..|lines| - 1], pay) + (if last.pay == pay then last.line.amount else 0)
  }

  ghost predicate Disjoint(records: seq<PayRecord>) {
    forall i, j :: 0 <= i < j < |records| && records[i].placement == records[j].placement
      ==> records[i].end < records[j].start || records[j].end < records[i].start
  }

  ghost predicate Sound(l: Ledger) {
    && Disjoint(l.records)
    && (forall i :: 0 <= i < |l.records| ==>
          && l.records[i].start <= l.records[i].end
          && 0 <= l.records[i].deductions <= l.records[i].gross
          && Deducted(l.lines, i) == l.records[i].deductions)
    && (forall i :: 0 <= i < |l.lines| ==>
          l.lines[i].pay < |l.records| && l.lines[i].line.amount > 0 && Answerable(l.lines[i].line))
  }

  lemma {:induction false} BookedTotals(lines: seq<Booked>, pay: Id, more: seq<Line>, k: Id)
    ensures Deducted(lines + Book(pay, more), k) == Deducted(lines, k) + (if k == pay then Total(more) else 0)
  {
    if more == [] {
      assert lines + Book(pay, more) == lines;
    } else {
      var front := more[..|more| - 1];
      BookedTotals(lines, pay, front, k);
      var whole := lines + Book(pay, more);
      assert whole[..|whole| - 1] == lines + Book(pay, front);
    }
  }

  lemma {:induction false} NothingDeductedYet(lines: seq<Booked>, pay: Id)
    requires forall i :: 0 <= i < |lines| ==> lines[i].pay < pay
    ensures Deducted(lines, pay) == 0
  {
    if lines != [] { NothingDeductedYet(lines[..|lines| - 1], pay); }
  }

  /** The guarded insert: the database trigger, then the lines, all or nothing. */
  function Insert(l: Ledger, c: Claim): Option<Ledger> {
    if Free(l.records, c) && Itemised(c)
    then Some(Ledger(l.records + [RecordOf(c)], l.lines + Book(|l.records|, c.lines)))
    else None
  }

  lemma InsertKeepsSound(l: Ledger, c: Claim)
    requires Sound(l) && WellFormed(c) && Insert(l, c).Some?
    ensures Sound(Insert(l, c).value)
  {
    var m := Insert(l, c).value;
    var n := |l.records|;
    NothingDeductedYet(l.lines, n);
    forall i | |l.lines| <= i < |m.lines| ensures m.lines[i].line.amount > 0 && Answerable(m.lines[i].line) {
      TidyStaysGood(c.lines[i - |l.lines|]);
      GoodLinesAreAnswerable(m.lines[i].line);
    }
    forall i | 0 <= i < |m.records| ensures Deducted(m.lines, i) == m.records[i].deductions {
      BookedTotals(l.lines, n, c.lines, i);
    }
    forall i | 0 <= i < n && l.records[i].placement == c.placement
      ensures l.records[i].end < c.start || c.end < l.records[i].start
    {
      assert l.records[i] in l.records;
    }
  }

  // ---- a day is paid for once ------------------------------------------------------

  /** The days from one to another, both included. */
  ghost function Days(from: int, until: int): (days: set<int>)
    ensures forall d :: d in days <==> from <= d <= until
    ensures |days| == if from <= until then until - from + 1 else 0
    decreases until - from
  {
    if from > until then {} else Days(from, until - 1) + {until}
  }

  /** The distinct days a placement's records cover. */
  ghost function PaidDays(records: seq<PayRecord>, placement: Id): set<int> {
    if records == [] then {}
    else
      var last := records[|records| - 1];
      PaidDays(records[..|records| - 1], placement)
        + (if last.placement == placement then Days(last.start, last.end) else {})
  }

  ghost function PaidLength(records: seq<PayRecord>, placement: Id): int {
    if records == [] then 0
    else
      var last := records[|records| - 1];
      PaidLength(records[..|records| - 1], placement)
        + (if last.placement == placement then last.end - last.start + 1 else 0)
  }

  lemma {:induction false} PaidDaysAreRecorded(records: seq<PayRecord>, placement: Id, d: int)
    requires d in PaidDays(records, placement)
    ensures exists i :: 0 <= i < |records| && records[i].placement == placement
              && records[i].start <= d <= records[i].end
  {
    var front, last := records[..|records| - 1], records[|records| - 1];
    if !(last.placement == placement && last.start <= d <= last.end) {
      PaidDaysAreRecorded(front, placement, d);
      var i :| 0 <= i < |front| && front[i].placement == placement && front[i].start <= d <= front[i].end;
      assert records[i] == front[i];
    }
  }

  /** In a sound ledger the lengths of a placement's periods add up to the number of distinct
      days they cover: no day is paid twice. */
  lemma {:induction false} NoDayIsPaidTwice(records: seq<PayRecord>, placement: Id)
    requires Disjoint(records) && forall i :: 0 <= i < |records| ==> records[i].start <= records[i].end
    ensures PaidLength(records, placement) == |PaidDays(records, placement)|
  {
    if records != [] {
      var front, last := records[..|records| - 1], records[|records| - 1];
      NoDayIsPaidTwice(front, placement);
      if last.placement == placement {
        forall d | d in PaidDays(front, placement) && d in Days(last.start, last.end) ensures false {
          PaidDaysAreRecorded(front, placement, d);
        }
        assert PaidDays(front, placement) !! Days(last.start, last.end);
      }
    }
  }

  lemma DaysApart(a: int, b: int, c: int, d: int)
    requires a <= b && c <= d
    ensures Days(a, b) !! Days(c, d) <==> b < c || d < a
  {
    var shared := if a < c then c else a;
    if !(b < c || d < a) { assert shared in Days(a, b) && shared in Days(c, d); }
  }

  lemma FreeOfOneMore(records: seq<PayRecord>, last: PayRecord, c: Claim)
    ensures Free(records + [last], c) <==>
      Free(records, c) && (last.placement == c.placement ==> c.end < last.start || last.end < c.start)
  {
    assert last in records + [last];
  }

  lemma {:induction false} FreeDaysAreUnpaid(records: seq<PayRecord>, c: Claim)
    requires c.start <= c.end && forall i :: 0 <= i < |records| ==> records[i].start <= records[i].end
    ensures Free(records, c) <==> Days(c.start, c.end) !! PaidDays(records, c.placement)
  {
    if records != [] {
      var front, last := records[..|records| - 1], records[|records| - 1];
      FreeDaysAreUnpaid(front, c);
      assert records == front + [last];
      FreeOfOneMore(front, last, c);
      DaysApart(c.start, c.end, last.start, last.end);
    }
  }

  /** A claim that can be recorded: some days, none of them paid already, a positive wage, lines
      that answer for exactly what is taken off it, and the money due neither before the work nor
      by a way nobody knows. */
  ghost predicate MayBeRecorded(records: seq<PayRecord>, placements: nat, c: Claim) {
    && c.placement < placements
    && Days(c.start, c.end) != {} && Days(c.start, c.end) !! PaidDays(records, c.placement)
    && c.gross > 0 && 0 <= c.gross - c.deductions <= c.gross
    && Total(c.lines) == c.deductions && (forall l :: l in c.lines ==> Answerable(l))
    && c.due >= c.start
    && (c.via == None || c.via == Some("momo") || c.via == Some("cash") || c.via == Some("bank"))
  }

  /** The stored line is this one of the claim, trimmed. */
  ghost predicate Holds(b: Booked, pay: Id, l: Line) {
    b.pay == pay && b.line.amount == l.amount && Trimmed(l.kind, b.line.kind) && Trimmed(l.note, b.line.note)
  }

  /** The claim is in the books as it was made, neither paid nor confirmed, with exactly its lines. */
  ghost predicate Recorded(before: Ledger, after: Ledger, c: Claim) {
    && after.records ==
         before.records + [PayRecord(c.placement, c.start, c.end, c.gross, c.deductions, c.due, c.via, None, false)]
    && |after.lines| == |before.lines| + |c.lines| && after.lines[..|before.lines|] == before.lines
    && (forall k :: 0 <= k < |c.lines| ==> Holds(after.lines[|before.lines| + k], |before.records|, c.lines[k]))
  }

  lemma InsertRecords(l: Ledger, c: Claim)
    requires Insert(l, c).Some?
    ensures Recorded(l, Insert(l, c).value, c)
    ensures PaidDays(Insert(l, c).value.records, c.placement) == PaidDays(l.records, c.placement) + Days(c.start, c.end)
  {
    var after := Insert(l, c).value;
    assert after.records[..|l.records|] == l.records;
    forall k | 0 <= k < |c.lines| ensures Holds(after.lines[|l.lines| + k], |l.records|, c.lines[k]) {
      StripTrims(c.lines[k].kind);
      StripTrims(c.lines[k].note);
    }
  }

  /** It is recorded exactly when it may be, and otherwise nothing is written. */
  ghost predicate DealtWith(before: Ledger, after: Ledger, placements: nat, c: Claim, written: bool) {
    && (written <==> MayBeRecorded(before.records, placements, c))
    && (if written then Recorded(before, after, c) else after == before)
  }

  lemma RecordedExactlyWhen(l: Ledger, placements: nat, c: Claim)
    requires Sound(l)
    ensures MayBeRecorded(l.records, placements, c) <==>
      WellFormed(c) && Itemised(c) && c.placement < placements && Free(l.records, c)
  {
    if c.start <= c.end { FreeDaysAreUnpaid(l.records, c); }
    forall line | line in c.lines ensures GoodLine(line) <==> Answerable(line) { GoodLinesAreAnswerable(line); }
  }

  lemma DealingWith(l: Ledger, placements: nat, c: Claim)
    requires Sound(l)
    ensures var written := WellFormed(c) && Itemised(c) && c.placement < placements && Free(l.records, c);
      var after := if written then Ledger(l.records + [RecordOf(c)], l.lines + Book(|l.records|, c.lines)) else l;
      Sound(after) && DealtWith(l, after, placements, c, written)
  {
    RecordedExactlyWhen(l, placements, c);
    if WellFormed(c) && Itemised(c) && c.placement < placements && Free(l.records, c) {
      InsertKeepsSound(l, c);
      InsertRecords(l, c);
    }
  }

  // ---- the module's operations -------------------------------------------------------

  class PayLedger {
    const placements: nat  // rows of the placements table
    var records: seq<PayRecord>
    var lines: seq<Booked>
    var raised: seq<Id>    // pay records a worker disputed, one escalation each

    ghost function Books(): Ledger reads this { Ledger(records, lines) }

    ghost predicate Valid() reads this { Sound(Books()) }

    constructor (placements: nat)
      ensures Valid() && this.placements == placements && Books() == Ledger([], []) && raised == []
    {
      this.placements := placements;
      records, lines, raised := [], [], [];
    }

    /** The checks made before anything is written, the first that fails named. */
    method Check(c: Claim) returns (refusal: Option<Refusal>)
      ensures refusal.None? <==> WellFormed(c) && c.placement < placements && Free(records, c)
    {
      if c.end < c.start { return Some(BadPeriod); }
      if c.gross <= 0 { return Some(BadGross); }
      if c.deductions < 0 || c.deductions > c.gross { return Some(BadDeductions); }
      if c.deductions != 0 && c.lines == [] { return Some(NotItemised); }
      if c.lines != [] && Total(c.lines) != c.deductions { return Some(LinesDoNotAddUp); }
      if c.due < c.start { return Some(DueTooEarly); }
      if c.via.Some? && c.via.value !in METHODS { return Some(BadMethod); }
      if c.placement >= placements { return Some(NoSuchPlacement); }
      if !Free(records, c) { return Some(Overlaps); }
      refusal := None;
    }

    /** Inside the savepoint: the record and its lines, or nothing. */
    method WriteRecord(c: Claim) returns (written: bool)
      modifies this`records, this`lines
      ensures written <==> Itemised(c)
      ensures Books() == if written
        then Ledger(old(records) + [RecordOf(c)], old(lines) + Book(|old(records)|, c.lines)) else old(Books())
    {
      var savedRecords, savedLines := records, lines;
      var pay := |records|;
      records := records + [RecordOf(c)];
      for i := 0 to |c.lines|
        invariant records == old(records) + [RecordOf(c)]
        invariant lines == old(lines) + Book(pay, c.lines[..i])
        invariant forall l :: l in c.lines[..i] ==> GoodLine(l)
      {
        if !GoodLine(c.lines[i]) {
          assert c.lines[i] in c.lines;
          records, lines := savedRecords, savedLines;
          return false;
        }
        lines := lines + [Booked(pay, Tidy(c.lines[i]))];
        assert c.lines[..i + 1] == c.lines[..i] + [c.lines[i]];
        assert Book(pay, c.lines[..i + 1]) == Book(pay, c.lines[..i]) + [Booked(pay, Tidy(c.lines[i]))];
      }
      assert c.lines[..|c.lines|] == c.lines;
      written := true;
    }

    /** A claim is recorded exactly when it may be: then it is in the books as it was made, neither
        paid nor confirmed, with its lines; otherwise nothing is written. */
    method RecordPayPeriod(c: Claim) returns (r: Result<Id, Refusal>)
      requires Valid()
      modifies this
      ensures Valid() && raised == old(raised)
      ensures r.Ok? ==> r.value == |old(records)|
      ensures DealtWith(old(Books()), Books(), placements, c, r.Ok?)
    {
      DealingWith(Books(), placements, c);
      var refusal := Check(c);
      if refusal.Some? { return Err(refusal.value); }
      var pay := |records|;
      var written := WriteRecord(c);
      r := if written then Ok(pay) else Err(BadLine);
    }

    /** The employer's claim is taken once: a record already marked paid is never marked again. */
    method MarkPaid(pay: Id, paidOn: int, via: Option<string>) returns (r: Result<(), Refusal>)
      requires Valid()
      modifies this
      ensures Valid() && raised == old(raised) && lines == old(lines)
      ensures r.Ok? <==> pay < |old(records)| && old(records)[pay].paidOn.None?
                         && (via.Some? ==> via.value in METHODS)
      ensures r.Ok? ==> records == old(records)[pay := old(records)[pay].(paidOn := Some(paidOn),
                          via := if via.Some? then via else old(records)[pay].via)]
      ensures r.Err? ==> records == old(records)
    {
      if pay >= |records| || records[pay].paidOn.Some? { return Err(NoSuchRecord); }
      if via.Some? && via.value !in METHODS { return Err(BadMethod); }
      var was := records[pay];
      records := records[pay := was.(paidOn := Some(paidOn), via := if via.Some? then via else was.via)];
      r := Ok(());
    }

    /** The worker's answer. A "no" raises one pay escalation, and if nobody can own that
        escalation the answer is not recorded either. */
    method ConfirmWithWorker(pay: Id, inFull: bool, someoneToTell: bool) returns (r: Result<(), Refusal>)
      requires Valid()
      modifies this
      ensures Valid() && lines == old(lines)
      ensures r.Ok? <==> pay < |old(records)| && (inFull || someoneToTell)
      ensures r.Ok? ==> records == old(records)[pay := old(records)[pay].(confirmed := inFull)]
      ensures raised == old(raised) + (if r.Ok? && !inFull then [pay] else [])
      ensures r.Err? ==> records == old(records)
    {
      if pay >= |records| { return Err(NoSuchRecord); }
      if !inFull && !someoneToTell { return Err(NobodyToTell); }
      records := records[pay := records[pay].(confirmed := inFull)];
      if !inFull { raised := raised + [pay]; }
      r := Ok(());
    }
  }

  // ---- several coordinators at once ----------------------------------------------------

  /** Between the overlap check and the insert, a claim waits in its session. */
  datatype Office = Office(ledger: Ledger, pending: map<Id, Claim>)

  datatype Move =
    | Look(session: Id, claim: Claim)   // the checks, on the ledger as it is now
    | Write(session: Id)                // the insert, on the ledger as it is then
    | Paid(pay: Id, day: int)
    | Confirmed(pay: Id, inFull: bool)

  function Apply(o: Office, m: Move): Office {
    match m
    case Look(s, c) => if WellFormed(c) && Free(o.ledger.records, c) then o.(pending := o.pending[s := c]) else o
    case Write(s) =>
      if s !in o.pending then o
      else
        var after := Insert(o.ledger, o.pending[s]);
        Office(if after.Some? then after.value else o.ledger, o.pending - {s})
    case Paid(p, day) =>
      if p >= |o.ledger.records| || o.ledger.records[p].paidOn.Some? then o
      else o.(ledger := o.ledger.(records := o.ledger.records[p := o.ledger.records[p].(paidOn := Some(day))]))
    case Confirmed(p, inFull) =>
      if p >= |o.ledger.records| then o
      else o.(ledger := o.ledger.(records := o.ledger.records[p := o.ledger.records[p].(confirmed := inFull)]))
  }

  function Run(o: Office, moves: seq<Move>): Office
    decreases |moves|
  {
    if moves == [] then o else Run(Apply(o, moves[0]), moves[1..])
  }

  ghost predicate Steady(o: Office) {
    Sound(o.ledger) && forall s :: s in o.pending ==> WellFormed(o.pending[s])
  }

  lemma ApplyKeepsSteady(o: Office, m: Move)
    requires Steady(o)
    ensures Steady(Apply(o, m))
  {
    if m.Write? && m.session in o.pending {
      var after := Insert(o.ledger, o.pending[m.session]);
      if after.Some? { InsertKeepsSound(o.ledger, o.pending[m.session]); }
    }
  }

  /** However checks and inserts of any number of coordinators interleave, the ledger stays
      sound, and for every placement no day is paid twice. */
  lemma {:induction false} EveryRunPaysEachDayOnce(o: Office, moves: seq<Move>, placement: Id)
    requires Steady(o)
    ensures Steady(Run(o, moves))
    ensures var records := Run(o, moves).ledger.records;
      PaidLength(records, placement) == |PaidDays(records, placement)|
    decreases |moves|
  {
    if moves == [] {
      NoDayIsPaidTwice(o.ledger.records, placement);
    } else {
      ApplyKeepsSteady(o, moves[0]);
      EveryRunPaysEachDayOnce(Apply(o, moves[0]), moves[1..], placement);
    }
  }

  /** The check alone does not suffice: whenever one claim passes it, a second session passes
      it with the same claim, and writing both without the guard pays its days twice. */
  lemma TheCheckAloneRaces(l: Ledger, c: Claim)
    requires Sound(l) && WellFormed(c) && Free(l.records, c)
    ensures var o := Run(Office(l, map[]), [Look(0, c), Look(1, c)]);
      o.ledger == l && 0 in o.pending && 1 in o.pending
    ensures !Disjoint(l.records + [RecordOf(c), RecordOf(c)])
    ensures Itemised(c) ==>
      Run(Office(l, map[]), [Look(0, c), Look(1, c), Write(0), Write(1)]).ledger == Insert(l, c).value
  {
    var two := l.records + [RecordOf(c), RecordOf(c)];
    assert two[|l.records|] == two[|l.records| + 1] == RecordOf(c);
    var o0 := Office(l, map[]);
    var o1 := Apply(o0, Look(0, c));
    var o2 := Apply(o1, Look(1, c));
    assert Run(o0, [Look(0, c), Look(1, c)]) == Run(o1, [Look(1, c)]) == Run(o2, []) == o2;
    if Itemised(c) {
      var o3 := Apply(o2, Write(0));
      assert RecordOf(c) in o3.ledger.records;
      var o4 := Apply(o3, Write(1));
      assert o4.ledger == o3.ledger;
      assert [Look(0, c), Look(1, c), Write(0), Write(1)][1..] == [Look(1, c), Write(0), Write(1)];
      assert [Look(1, c), Write(0), Write(1)][1..] == [Write(0), Write(1)];
      assert Run(o2, [Write(0), Write(1)]) == Run(o3, [Write(1)]) == Run(o4, []) == o4;
    }
  }
}
