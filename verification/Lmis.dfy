/** Outcome reporting: grouped counts over whole calendar months. */
module Lmis {
  import opened Base
  import opened Calendar

  const MIN_CELL := 5

  datatype Window = Window(startsOn: Date, endsOn: Date)

  datatype Refusal = EndsBeforeItStarts | NotFromTheFirst | NotToTheLast | MonthNotOver | OutOfCalendar

  /** One placement joined to its request, employer, candidate and day-30 check-in. */
  datatype Row = Row(offeredOn: Date, sector: string, district: string, workType: string,
                     status: Status, woman: bool, stillWorking: Option<bool>,
                     candidate: Id, employer: Id, cooperative: bool,
                     payRwf: nat, payUnit: PayUnit, transportRwf: nat)

  type Group = (string, string, string)

  datatype Cell = Hidden | Shown(count: nat)

  datatype Outcome = Outcome(placements: Cell, women: Cell, completed: Cell, answered: Cell, retained: Cell)

  datatype Totals = Totals(placements: int, individuals: nat, employers: nat, women: int, cooperatives: int,
                           meanPay: Option<int>, meanTransport: Option<int>, meanNet: Option<int>)

  // ---- ReportWindow ---------------------------------------------------------

  function MakeWindow(startsOn: Date, endsOn: Date, today: Date): Result<Window, Refusal>
    requires Valid(startsOn) && Valid(endsOn) && Valid(today)
  {
    if !AtMost(startsOn, endsOn) then Err(EndsBeforeItStarts)
    else if startsOn.day != 1 then Err(NotFromTheFirst)
    else if endsOn != LastDayOfMonth(endsOn) then Err(NotToTheLast)
    else if AtMost(FirstOfMonth(today), endsOn) then Err(MonthNotOver)
    else Ok(Window(startsOn, endsOn))
  }

  ghost predicate Accepted(w: Window, today: Date) {
    && Valid(w.startsOn) && Valid(w.endsOn) && Valid(today)
    && MakeWindow(w.startsOn, w.endsOn, today) == Ok(w)
  }

  predicate Covers(w: Window, d: Date) {
    AtMost(w.startsOn, d) && AtMost(d, w.endsOn)
  }

  function MonthOf(d: Date): Window
    requires Valid(d)
  {
    Window(FirstOfMonth(d), LastDayOfMonth(d))
  }

  /** The last `months` complete calendar months before today; a count below one is read as one.
      It fails only where the calendar itself runs out, before January of year 1. */
  method WholeMonthsEndingBefore(today: Date, months: int) returns (r: Result<Window, Refusal>)
    requires Valid(today)
    ensures r.Ok? <==> MonthIndex(today) >= (if months < 1 then 1 else months)
    ensures r.Err? ==> r.error == OutOfCalendar
    ensures r.Ok? ==>
      && Accepted(r.value, today)
      && MonthIndex(r.value.startsOn) == MonthIndex(today) - (if months < 1 then 1 else months)
      && r.value.endsOn == DayBefore(FirstOfMonth(today))
  {
    if FirstOfMonth(today) == Date(1, 1, 1) { return Err(OutOfCalendar); }
    PreviousMonthEnd(today);
    var end := DayBefore(FirstOfMonth(today));
    var start := end;
    for i := 1 to (if months < 1 then 1 else months)
      invariant Valid(start) && AtMost(start, end)
      invariant MonthIndex(start) == MonthIndex(today) - i
    {
      if FirstOfMonth(start) == Date(1, 1, 1) { return Err(OutOfCalendar); }
      PreviousMonthEnd(start);
      start := DayBefore(FirstOfMonth(start));
    }
    r := MakeWindow(FirstOfMonth(start), end, today);
  }

  /** Subtracting one accepted window from another leaves whole months, each of which
      could have been asked for on its own. */
  lemma DifferenceIsWholeMonths(outer: Window, inner: Window, today: Date, d: Date)
    requires Accepted(outer, today) && Accepted(inner, today) && Valid(d)
    requires Covers(outer, d) && !Covers(inner, d)
    ensures Accepted(MonthOf(d), today) && Covers(MonthOf(d), d)
    ensures forall e :: Valid(e) && Covers(MonthOf(d), e) ==> Covers(outer, e) && !Covers(inner, e)
  {
    LastDayIsLast(d);
    LastDayIsLast(outer.endsOn);
    LastDayIsLast(inner.endsOn);
  }

  // ---- placement_outcomes and summary ---------------------------------------

  predicate Counted(r: Row, w: Window) {
    && r.status in {Status.Active, Status.Completed, Status.NoShow, Status.Terminated}
    && Covers(w, r.offeredOn)
  }

  function Rows(rows: seq<Row>, w: Window): seq<Row> {
    if rows == [] then []
    else (if Counted(rows[0], w) then [rows[0]] else []) + Rows(rows[1..], w)
  }

  function GroupOf(r: Row): Group { (r.sector, r.district, r.workType) }

  /** What a FILTER clause or an aggregate takes from one row. */
  datatype Figure = Placements | Women | Finished | Answered | Retained | Cooperatives | Daily | DailyPay | DailyFare

  function Amount(f: Figure, r: Row): int {
    match f
    case Placements => 1
    case Women => if r.woman then 1 else 0
    case Finished => if r.status == Status.Completed then 1 else 0
    case Answered => if r.stillWorking.Some? then 1 else 0
    case Retained => if r.stillWorking == Some(true) then 1 else 0
    case Cooperatives => if r.cooperative then 1 else 0
    case Daily => if r.payUnit == PerDay then 1 else 0
    case DailyPay => if r.payUnit == PerDay then r.payRwf else 0
    case DailyFare => if r.payUnit == PerDay then r.transportRwf else 0
  }

  /** A figure over one group, or over all rows. */
  function Share(f: Figure, scope: Option<Group>, r: Row): int {
    if scope.Some? && scope.value != GroupOf(r) then 0 else Amount(f, r)
  }

  function Sum(rows: seq<Row>, f: Figure, scope: Option<Group>): int {
    if rows == [] then 0 else Share(f, scope, rows[0]) + Sum(rows[1..], f, scope)
  }

  function Suppress(n: int): Cell {
    if n >= MIN_CELL then Shown(n) else Hidden
  }

  function OutcomeOf(rows: seq<Row>, g: Group): Outcome {
    Outcome(Suppress(Sum(rows, Placements, Some(g))), Suppress(Sum(rows, Women, Some(g))),
            Suppress(Sum(rows, Finished, Some(g))), Suppress(Sum(rows, Answered, Some(g))),
            Suppress(Sum(rows, Retained, Some(g))))
  }

  function Groups(rows: seq<Row>): set<Group> { set r | r in rows :: GroupOf(r) }

  function Individuals(rows: seq<Row>): set<Id> { set r | r in rows :: r.candidate }

  function Employers(rows: seq<Row>): set<Id> { set r | r in rows :: r.employer }

  function PlacementOutcomes(rows: seq<Row>, w: Window): map<Group, Outcome> {
    var counted := Rows(rows, w);
    map g | g in Groups(counted) :: OutcomeOf(counted, g)
  }

  /** ROUND(avg(x)) over non-negative amounts: halves go up. */
  function RoundedMean(total: int, count: int): Option<int> {
    if count <= 0 then None else Some((2 * total + count) / (2 * count))
  }

  function Summary(rows: seq<Row>, w: Window): Totals {
    TotalsOf(Rows(rows, w))
  }

  function TotalsOf(rows: seq<Row>): Totals {
    var days := Sum(rows, Daily, None);
    var pay := RoundedMean(Sum(rows, DailyPay, None), days);
    var fare := RoundedMean(Sum(rows, DailyFare, None), days);
    Totals(Sum(rows, Placements, None), |Individuals(rows)|, |Employers(rows)|,
           Sum(rows, Women, None), Sum(rows, Cooperatives, None), pay, fare,
           if pay.Some? && pay.value != 0 && fare.Some? then Some(pay.value - fare.value) else None)
  }

  // ---- what the cells and the totals are of ------------------------------------

  /** The placements that count: begun or meant to begin, and offered on a day of the window. */
  ghost predicate IsCounted(r: Row, w: Window) {
    && r.status !in {Status.Offered, Status.Accepted, Status.Declined, Status.Replaced, Status.Cancelled}
    && AtMost(w.startsOn, r.offeredOn) && AtMost(r.offeredOn, w.endsOn)
  }

  datatype Column = AllOfThem | OfWomen | ThatFinished | ThatAnswered | ThatStayed

  ghost predicate Belongs(k: Column, r: Row) {
    match k
    case AllOfThem => true
    case OfWomen => r.woman
    case ThatFinished => r.status == Status.Completed
    case ThatAnswered => r.stillWorking != None
    case ThatStayed => r.stillWorking == Some(true)
  }

  function CellOf(o: Outcome, k: Column): Cell {
    match k
    case AllOfThem => o.placements
    case OfWomen => o.women
    case ThatFinished => o.completed
    case ThatAnswered => o.answered
    case ThatStayed => o.retained
  }

  ghost predicate InGroup(r: Row, g: Group) { r.sector == g.0 && r.district == g.1 && r.workType == g.2 }

  /** The numbers of the rows that count for this cell. */
  ghost function RowsBehind(rows: seq<Row>, w: Window, g: Group, k: Column): set<nat> {
    set i: nat | i < |rows| && IsCounted(rows[i], w) && InGroup(rows[i], g) && Belongs(k, rows[i])
  }

  function FigureOf(k: Column): Figure {
    match k
    case AllOfThem => Placements
    case OfWomen => Women
    case ThatFinished => Finished
    case ThatAnswered => Answered
    case ThatStayed => Retained
  }

  lemma CountedIsCounted(r: Row, w: Window)
    ensures Counted(r, w) <==> IsCounted(r, w)
  {
    match r.status {
      case Offered => {}
      case Accepted => {}
      case Active => {}
      case Completed => {}
      case NoShow => {}
      case Declined => {}
      case Replaced => {}
      case Terminated => {}
      case Cancelled => {}
    }
  }

  lemma {:induction false} RowsLast(rows: seq<Row>, w: Window)
    requires rows != []
    ensures var front, last := rows[..|rows| - 1], rows[|rows| - 1];
      Rows(rows, w) == Rows(front, w) + (if Counted(last, w) then [last] else [])
  {
    var front, last := rows[..|rows| - 1], rows[|rows| - 1];
    if |rows| == 1 {
      assert rows == [last] && front == [];
    } else {
      RowsLast(rows[1..], w);
      assert rows[1..][..|rows| - 2] == front[1..] && rows[1..][|rows| - 2] == last;
      assert front[0] == rows[0];
    }
  }

  /** A row that counts and adds one to the figure. */
  ghost predicate AddsOne(r: Row, w: Window, f: Figure, scope: Option<Group>) {
    IsCounted(r, w) && Share(f, scope, r) == 1
  }

  ghost function Marks(rows: seq<Row>, w: Window, f: Figure, scope: Option<Group>): (marks: seq<bool>)
    ensures |marks| == |rows| && forall i :: 0 <= i < |rows| ==> marks[i] == AddsOne(rows[i], w, f, scope)
  {
    seq(|rows|, i requires 0 <= i < |rows| => AddsOne(rows[i], w, f, scope))
  }

  ghost function Marked(marks: seq<bool>): set<nat> { set i: nat | i < |marks| && marks[i] }

  lemma MarkedLast(marks: seq<bool>)
    requires marks != []
    ensures var n := |marks| - 1;
      |Marked(marks)| == |Marked(marks[..n])| + if marks[n] then 1 else 0
  {
    var n := |marks| - 1;
    assert Marked(marks) == Marked(marks[..n]) + if marks[n] then {n} else {};
  }

  lemma SumLast(rows: seq<Row>, w: Window, f: Figure, scope: Option<Group>)
    requires rows != []
    ensures var front, last := rows[..|rows| - 1], rows[|rows| - 1];
      Sum(Rows(rows, w), f, scope) ==
      Sum(Rows(front, w), f, scope) + if IsCounted(last, w) then Share(f, scope, last) else 0
  {
    var front, last := rows[..|rows| - 1], rows[|rows| - 1];
    CountedIsCounted(last, w);
    RowsLast(rows, w);
    SumSplits(Rows(front, w), if Counted(last, w) then [last] else [], f, scope);
    SumOfOne(last, f, scope);
  }

  /** A figure that takes one or nothing from each row counts rows. */
  lemma {:induction false} SumIsHowMany(rows: seq<Row>, w: Window, f: Figure, scope: Option<Group>)
    requires f != DailyPay && f != DailyFare
    ensures Sum(Rows(rows, w), f, scope) == |Marked(Marks(rows, w, f, scope))|
  {
    if rows == [] {
      assert Marked(Marks(rows, w, f, scope)) == {};
    } else {
      var n := |rows| - 1;
      SumIsHowMany(rows[..n], w, f, scope);
      SumLast(rows, w, f, scope);
      MarkedLast(Marks(rows, w, f, scope));
      assert Marks(rows, w, f, scope)[..n] == Marks(rows[..n], w, f, scope);
      assert Share(f, scope, rows[|rows| - 1]) in {0, 1};
    }
  }

  lemma CellIsTheRowsBehindIt(rows: seq<Row>, w: Window, g: Group, k: Column)
    ensures Sum(Rows(rows, w), FigureOf(k), Some(g)) == |RowsBehind(rows, w, g, k)|
  {
    SumIsHowMany(rows, w, FigureOf(k), Some(g));
    forall i: nat | i < |rows| ensures i in Marked(Marks(rows, w, FigureOf(k), Some(g))) <==> i in RowsBehind(rows, w, g, k) {
      BelongsAddsOne(rows[i], g, k);
    }
    assert Marked(Marks(rows, w, FigureOf(k), Some(g))) == RowsBehind(rows, w, g, k);
  }

  lemma BelongsAddsOne(r: Row, g: Group, k: Column)
    ensures Share(FigureOf(k), Some(g), r) == 1 <==> InGroup(r, g) && Belongs(k, r)
  {
  }

  lemma SumOfOne(r: Row, f: Figure, scope: Option<Group>)
    ensures Sum([r], f, scope) == Share(f, scope, r) && Sum([], f, scope) == 0
  {
    assert [r][1..] == [];
  }

  lemma GroupsAreThoseWithRows(rows: seq<Row>, w: Window, g: Group)
    ensures g in PlacementOutcomes(rows, w) <==> RowsBehind(rows, w, g, AllOfThem) != {}
  {
    var counted := Rows(rows, w);
    RowsKeepCounts(rows, w);
    if i: nat :| i in RowsBehind(rows, w, g, AllOfThem) {
      CountedIsCounted(rows[i], w);
      assert rows[i] in multiset(rows) && multiset(counted)[rows[i]] > 0 && rows[i] in counted;
      assert GroupOf(rows[i]) == g;
    }
    if g in Groups(counted) {
      var r :| r in counted && GroupOf(r) == g;
      assert r in multiset(counted) && r in multiset(rows);
      var i: nat :| i < |rows| && rows[i] == r;
      CountedIsCounted(r, w);
      assert i in RowsBehind(rows, w, g, AllOfThem);
    }
  }

  /** Disclosure control of the cells. Groups are reported exactly where something counts, and a
      cell says how many rows are behind it, unless they are fewer than five: then nothing. */
  lemma SmallCellsAreHidden(rows: seq<Row>, w: Window, g: Group, k: Column)
    ensures g in PlacementOutcomes(rows, w) <==> RowsBehind(rows, w, g, AllOfThem) != {}
    ensures g in PlacementOutcomes(rows, w) ==>
      var cell, behind := CellOf(PlacementOutcomes(rows, w)[g], k), |RowsBehind(rows, w, g, k)|;
      && (cell == Hidden <==> behind < 5)
      && (cell.Shown? ==> cell.count == behind >= 5)
  {
    GroupsAreThoseWithRows(rows, w, g);
    CellIsTheRowsBehindIt(rows, w, g, k);
  }

  /** The numbers of the rows that count for a total, and the people and employers they are of. */
  ghost function RowsIn(rows: seq<Row>, w: Window): set<nat> {
    set i: nat | i < |rows| && IsCounted(rows[i], w)
  }

  ghost predicate IsIn(f: Figure, r: Row) {
    match f
    case Placements => true
    case Women => r.woman
    case Cooperatives => r.cooperative
    case Daily => r.payUnit == PerDay
    case _ => false
  }

  ghost function RowsTotalled(rows: seq<Row>, w: Window, f: Figure): set<nat> {
    set i | i in RowsIn(rows, w) && IsIn(f, rows[i])
  }

  lemma TotalIsTheRowsBehindIt(rows: seq<Row>, w: Window, f: Figure)
    requires f in {Placements, Women, Cooperatives, Daily}
    ensures Sum(Rows(rows, w), f, None) == |RowsTotalled(rows, w, f)|
  {
    SumIsHowMany(rows, w, f, None);
    forall i: nat | i < |rows| ensures i in Marked(Marks(rows, w, f, None)) <==> i in RowsTotalled(rows, w, f) {
      assert Share(f, None, rows[i]) == 1 <==> IsIn(f, rows[i]);
    }
    assert Marked(Marks(rows, w, f, None)) == RowsTotalled(rows, w, f);
  }

  /** Rounding to the nearest franc, halves up. */
  lemma MeansAreRounded(total: nat, count: nat)
    ensures count == 0 ==> RoundedMean(total, count).None?
    ensures count > 0 ==>
      RoundedMean(total, count).Some? &&
      var mean := RoundedMean(total, count).value;
      2 * count * mean - count <= 2 * total < 2 * count * mean + count
  {
  }

  /** What the rows paid by the day come to, in pay or in fares. */
  ghost function ByTheDay(rows: seq<Row>, w: Window, fares: bool): nat {
    if rows == [] then 0
    else
      var last := rows[|rows| - 1];
      ByTheDay(rows[..|rows| - 1], w, fares)
      + (if IsCounted(last, w) && last.payUnit == PerDay then (if fares then last.transportRwf else last.payRwf) else 0)
  }

  lemma {:induction false} DaysPayAddsUp(rows: seq<Row>, w: Window)
    ensures Sum(Rows(rows, w), DailyPay, None) == ByTheDay(rows, w, false)
    ensures Sum(Rows(rows, w), DailyFare, None) == ByTheDay(rows, w, true)
  {
    if rows != [] {
      DaysPayAddsUp(rows[..|rows| - 1], w);
      SumLast(rows, w, DailyPay, None);
      SumLast(rows, w, DailyFare, None);
    }
  }

  /** The totals: rows, women and cooperatives counted, people and employers counted once, and the
      means of what is paid by the day. */
  lemma TotalsCountTheRows(rows: seq<Row>, w: Window)
    ensures var t := Summary(rows, w);
      && t.placements == |RowsIn(rows, w)|
      && t.women == |set i | i in RowsIn(rows, w) && rows[i].woman|
      && t.cooperatives == |set i | i in RowsIn(rows, w) && rows[i].cooperative|
      && t.individuals == |set i | i in RowsIn(rows, w) :: rows[i].candidate|
      && t.employers == |set i | i in RowsIn(rows, w) :: rows[i].employer|
      && t.meanPay == RoundedMean(ByTheDay(rows, w, false), |set i | i in RowsIn(rows, w) && rows[i].payUnit == PerDay|)
      && t.meanTransport == RoundedMean(ByTheDay(rows, w, true), |set i | i in RowsIn(rows, w) && rows[i].payUnit == PerDay|)
      && (t.meanNet.Some? <==> t.meanPay.Some? && t.meanPay.value != 0)
      && (t.meanNet.Some? ==> t.meanTransport.Some? && t.meanNet.value == t.meanPay.value - t.meanTransport.value)
  {
    TotalIsTheRowsBehindIt(rows, w, Placements);
    TotalIsTheRowsBehindIt(rows, w, Women);
    TotalIsTheRowsBehindIt(rows, w, Cooperatives);
    TotalIsTheRowsBehindIt(rows, w, Daily);
    DaysPayAddsUp(rows, w);
    assert RowsTotalled(rows, w, Daily) == set i | i in RowsIn(rows, w) && rows[i].payUnit == PerDay;
    assert RowsTotalled(rows, w, Placements) == RowsIn(rows, w);
    assert RowsTotalled(rows, w, Women) == set i | i in RowsIn(rows, w) && rows[i].woman;
    assert RowsTotalled(rows, w, Cooperatives) == set i | i in RowsIn(rows, w) && rows[i].cooperative;
    CountedOnce(rows, w);
  }

  lemma CountedOnce(rows: seq<Row>, w: Window)
    ensures Individuals(Rows(rows, w)) == set i | i in RowsIn(rows, w) :: rows[i].candidate
    ensures Employers(Rows(rows, w)) == set i | i in RowsIn(rows, w) :: rows[i].employer
  {
    var counted := Rows(rows, w);
    RowsKeepCounts(rows, w);
    forall i | i in RowsIn(rows, w) ensures rows[i] in counted {
      CountedIsCounted(rows[i], w);
      assert rows[i] in multiset(rows) && multiset(counted)[rows[i]] > 0;
    }
    forall r | r in counted ensures exists i :: i in RowsIn(rows, w) && rows[i] == r {
      assert r in multiset(counted) && r in multiset(rows);
      var i: nat :| i < |rows| && rows[i] == r;
      CountedIsCounted(r, w);
    }
  }

  /** The windows accepted: in order, from a first to a last of the month, in months that are over. */
  lemma WindowsAcceptedAreWholePastMonths(startsOn: Date, endsOn: Date, today: Date)
    requires Valid(startsOn) && Valid(endsOn) && Valid(today)
    ensures MakeWindow(startsOn, endsOn, today).Ok? <==>
      && startsOn.day == 1 && endsOn.day == DaysInMonth(endsOn.year, endsOn.month)
      && MonthIndex(startsOn) <= MonthIndex(endsOn) < MonthIndex(today)
    ensures MakeWindow(startsOn, endsOn, today).Ok? ==>
      MakeWindow(startsOn, endsOn, today).value == Window(startsOn, endsOn)
  {
    LastDayIsLast(endsOn);
  }

  // ---- what a report can reveal ----------------------------------------------

  /** The row with the day of the month rubbed out; the month stays. */
  function Blur(r: Row): Row { r.(offeredOn := FirstOfMonth(r.offeredOn)) }

  function BlurAll(rows: seq<Row>): seq<Row> {
    seq(|rows|, i requires 0 <= i < |rows| => Blur(rows[i]))
  }

  ghost predicate Dated(rows: seq<Row>) {
    forall r :: r in rows ==> Valid(r.offeredOn)
  }

  /** Month by month, the same rows with the same contents, on whatever days. */
  ghost predicate AgreeByMonth(xs: seq<Row>, ys: seq<Row>) {
    Dated(xs) && Dated(ys) && multiset(BlurAll(xs)) == multiset(BlurAll(ys))
  }

  ghost predicate SameReports(xs: seq<Row>, ys: seq<Row>, w: Window) {
    PlacementOutcomes(xs, w) == PlacementOutcomes(ys, w) && Summary(xs, w) == Summary(ys, w)
  }

  /** No two datasets that agree month by month can be told apart through this window. */
  ghost predicate DayBlind(w: Window) {
    forall xs, ys :: AgreeByMonth(xs, ys) ==> SameReports(xs, ys, w)
  }

  predicate Aligned(w: Window)
    requires Valid(w.endsOn)
  {
    w.startsOn.day == 1 && w.endsOn == LastDayOfMonth(w.endsOn)
  }

  lemma {:induction false} RowsBlur(rows: seq<Row>, w: Window)
    requires Dated(rows) && Valid(w.startsOn) && Valid(w.endsOn) && Aligned(w)
    ensures Rows(BlurAll(rows), w) == BlurAll(Rows(rows, w))
  {
    if rows != [] {
      var head := rows[0];
      assert head in rows && forall r :: r in rows[1..] ==> r in rows;
      RowsBlur(rows[1..], w);
      LastDayIsLast(w.endsOn);
      LastDayIsLast(head.offeredOn);
      assert BlurAll(rows)[1..] == BlurAll(rows[1..]);
      assert Counted(Blur(head), w) == Counted(head, w);
      assert Rows(rows, w) == (if Counted(head, w) then [head] else []) + Rows(rows[1..], w);
    }
  }

  lemma {:induction false} SumBlur(rows: seq<Row>, f: Figure, scope: Option<Group>)
    ensures Sum(BlurAll(rows), f, scope) == Sum(rows, f, scope)
  {
    if rows != [] {
      SumBlur(rows[1..], f, scope);
      assert BlurAll(rows)[1..] == BlurAll(rows[1..]);
    }
  }

  lemma {:induction false} SumSplits(a: seq<Row>, b: seq<Row>, f: Figure, scope: Option<Group>)
    ensures Sum(a + b, f, scope) == Sum(a, f, scope) + Sum(b, f, scope)
  {
    if a == [] {
      assert a + b == b;
    } else {
      SumSplits(a[1..], b, f, scope);
      assert (a + b)[1..] == a[1..] + b;
    }
  }

  function Without(rows: seq<Row>, k: nat): seq<Row>
    requires k < |rows|
  {
    rows[..k] + rows[k + 1..]
  }

  lemma PickOut(rows: seq<Row>, k: nat)
    requires k < |rows|
    ensures multiset(rows) == multiset{rows[k]} + multiset(Without(rows, k))
  {
    assert rows == rows[..k] + ([rows[k]] + rows[k + 1..]);
  }

  lemma SumWithout(rows: seq<Row>, k: nat, f: Figure, scope: Option<Group>)
    requires k < |rows|
    ensures Sum(rows, f, scope) == Share(f, scope, rows[k]) + Sum(Without(rows, k), f, scope)
  {
    var tail := rows[k..];
    assert rows == rows[..k] + tail && tail[1..] == rows[k + 1..];
    SumSplits(rows[..k], rows[k + 1..], f, scope);
    SumSplits(rows[..k], tail, f, scope);
  }

  lemma {:induction false} SumIgnoresOrder(xs: seq<Row>, ys: seq<Row>, f: Figure, scope: Option<Group>)
    requires multiset(xs) == multiset(ys)
    ensures Sum(xs, f, scope) == Sum(ys, f, scope)
  {
    assert |multiset(xs)| == |multiset(ys)|;
    if xs != [] {
      assert xs[0] in multiset(ys);
      var k :| 0 <= k < |ys| && ys[k] == xs[0];
      PickOut(xs, 0);
      PickOut(ys, k);
      assert multiset(Without(xs, 0)) == multiset(xs) - multiset{xs[0]};
      SumIgnoresOrder(Without(xs, 0), Without(ys, k), f, scope);
      SumWithout(xs, 0, f, scope);
      SumWithout(ys, k, f, scope);
    }
  }

  lemma {:induction false} RowsIgnoreOrder(xs: seq<Row>, ys: seq<Row>, w: Window)
    requires multiset(xs) == multiset(ys)
    ensures multiset(Rows(xs, w)) == multiset(Rows(ys, w))
  {
    RowsKeepCounts(xs, w);
    RowsKeepCounts(ys, w);
    forall r ensures multiset(Rows(xs, w))[r] == multiset(Rows(ys, w))[r] { }
  }

  lemma {:induction false} RowsKeepCounts(xs: seq<Row>, w: Window)
    ensures forall r :: multiset(Rows(xs, w))[r] == if Counted(r, w) then multiset(xs)[r] else 0
  {
    if xs != [] {
      RowsKeepCounts(xs[1..], w);
      assert xs == [xs[0]] + xs[1..];
    }
  }

  /** Every figure the reports add up is the same for rows that agree once blurred. */
  lemma SumSees(xs: seq<Row>, ys: seq<Row>, f: Figure, scope: Option<Group>)
    requires multiset(BlurAll(xs)) == multiset(BlurAll(ys))
    ensures Sum(xs, f, scope) == Sum(ys, f, scope)
  {
    SumBlur(xs, f, scope);
    SumBlur(ys, f, scope);
    SumIgnoresOrder(BlurAll(xs), BlurAll(ys), f, scope);
  }

  lemma InBlurred(xs: seq<Row>, ys: seq<Row>, r: Row)
    requires multiset(BlurAll(xs)) == multiset(BlurAll(ys)) && r in xs
    ensures exists s :: s in ys && Blur(s) == Blur(r)
  {
    var i :| 0 <= i < |xs| && xs[i] == r;
    assert BlurAll(xs)[i] == Blur(r);
    assert Blur(r) in multiset(BlurAll(ys));
    var j :| 0 <= j < |ys| && BlurAll(ys)[j] == Blur(r);
    assert ys[j] in ys && Blur(ys[j]) == Blur(r);
  }

  lemma CountedAgree(xs: seq<Row>, ys: seq<Row>, w: Window)
    requires AgreeByMonth(xs, ys) && Valid(w.startsOn) && Valid(w.endsOn) && Aligned(w)
    ensures multiset(BlurAll(Rows(xs, w))) == multiset(BlurAll(Rows(ys, w)))
  {
    RowsBlur(xs, w);
    RowsBlur(ys, w);
    RowsIgnoreOrder(BlurAll(xs), BlurAll(ys), w);
  }

  lemma OutcomesAgree(a: seq<Row>, b: seq<Row>, g: Group)
    requires multiset(BlurAll(a)) == multiset(BlurAll(b))
    ensures OutcomeOf(a, g) == OutcomeOf(b, g)
  {
    SumSees(a, b, Placements, Some(g));
    SumSees(a, b, Women, Some(g));
    SumSees(a, b, Finished, Some(g));
    SumSees(a, b, Answered, Some(g));
    SumSees(a, b, Retained, Some(g));
  }

  lemma TotalsAgree(a: seq<Row>, b: seq<Row>)
    requires multiset(BlurAll(a)) == multiset(BlurAll(b))
    ensures TotalsOf(a) == TotalsOf(b)
  {
    SetsAgree(a, b);
    SetsAgree(b, a);
    assert Individuals(a) == Individuals(b) && Employers(a) == Employers(b);
    SumSees(a, b, Placements, None);
    SumSees(a, b, Women, None);
    SumSees(a, b, Cooperatives, None);
    SumSees(a, b, Daily, None);
    SumSees(a, b, DailyPay, None);
    SumSees(a, b, DailyFare, None);
  }

  lemma SetsAgree(a: seq<Row>, b: seq<Row>)
    requires multiset(BlurAll(a)) == multiset(BlurAll(b))
    ensures Groups(a) <= Groups(b) && Individuals(a) <= Individuals(b) && Employers(a) <= Employers(b)
  {
    forall r | r in a ensures exists s :: s in b && Blur(s) == Blur(r) { InBlurred(a, b, r); }
    forall g | g in Groups(a) ensures g in Groups(b) {
      var r :| r in a && GroupOf(r) == g;
      var s :| s in b && Blur(s) == Blur(r);
      assert GroupOf(Blur(s)) == GroupOf(s);
    }
    forall c | c in Individuals(a) ensures c in Individuals(b) {
      var r :| r in a && r.candidate == c;
      var s :| s in b && Blur(s) == Blur(r);
      assert Blur(s).candidate == s.candidate;
    }
    forall e | e in Employers(a) ensures e in Employers(b) {
      var r :| r in a && r.employer == e;
      var s :| s in b && Blur(s) == Blur(r);
      assert Blur(s).employer == s.employer;
    }
  }

  /** The disclosure claim. Through every aligned window, two datasets that agree month by
      month give the same grouped outcomes and the same summary. */
  lemma NoReportSeparatesDays(xs: seq<Row>, ys: seq<Row>, w: Window)
    requires AgreeByMonth(xs, ys) && Valid(w.startsOn) && Valid(w.endsOn) && Aligned(w)
    ensures SameReports(xs, ys, w)
  {
    var a, b := Rows(xs, w), Rows(ys, w);
    CountedAgree(xs, ys, w);
    SetsAgree(a, b);
    SetsAgree(b, a);
    TotalsAgree(a, b);
    forall g ensures OutcomeOf(a, g) == OutcomeOf(b, g) { OutcomesAgree(a, b, g); }
  }

  function OneRow(d: Date): seq<Row> {
    [Row(d, "", "", "", Status.Active, false, None, 0, 0, false, 0, PerTask, 0)]
  }

  /** A single placement inside an unaligned window can be moved, within its month, outside it. */
  lemma MovedRowShows(w: Window, kept: Date, moved: Date)
    requires Valid(kept) && Valid(moved) && FirstOfMonth(kept) == FirstOfMonth(moved)
    requires Covers(w, kept) && !Covers(w, moved)
    ensures !DayBlind(w)
  {
    var xs, ys := OneRow(kept), OneRow(moved);
    assert BlurAll(xs) == [Blur(xs[0])] && BlurAll(ys) == [Blur(ys[0])];
    assert Blur(xs[0]) == Blur(ys[0]);
    assert AgreeByMonth(xs, ys);
    assert Rows(xs, w) == xs && Rows(ys, w) == [];
    assert Sum(xs, Placements, None) == 1 + Sum(xs[1..], Placements, None);
    assert Summary(xs, w).placements == 1 && Summary(ys, w).placements == 0;
    assert !SameReports(xs, ys, w);
  }

  /** The alignment ReportWindow demands is exactly what disclosure control needs: a window
      is blind to the day if and only if it runs from a first to a last of the month. */
  lemma AlignedExactlyWhenDayBlind(w: Window)
    requires Valid(w.startsOn) && Valid(w.endsOn) && AtMost(w.startsOn, w.endsOn)
    ensures DayBlind(w) <==> Aligned(w)
  {
    LastDayIsLast(w.endsOn);
    if Aligned(w) {
      forall xs, ys | AgreeByMonth(xs, ys) ensures SameReports(xs, ys, w) {
        NoReportSeparatesDays(xs, ys, w);
      }
    } else if w.startsOn.day != 1 {
      MovedRowShows(w, w.startsOn, FirstOfMonth(w.startsOn));
    } else {
      MovedRowShows(w, w.endsOn, LastDayOfMonth(w.endsOn));
    }
  }
}
