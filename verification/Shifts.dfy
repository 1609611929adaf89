/** When two pieces of work clash: the rule the matcher reads by and the database guards by. */
module Shifts {
  import opened Base
  import opened Calendar

  /** A time of day, in minutes after midnight. */
  type Clock = t: int | 0 <= t < 1440

  const AFTER_DARK: Clock := 1080

  /** The dates and hours of a work request. */
  datatype Hours = Hours(startsOn: Date, endsOn: Option<Date>, shiftStart: Option<Clock>, shiftEnd: Option<Clock>)

  function LastDay(h: Hours): Date {
    if h.endsOn.Some? then h.endsOn.value else h.startsOn
  }

  /** daterange(..., '[]') && daterange(..., '[]') */
  predicate DatesMeet(a: Hours, b: Hours) {
    AtMost(a.startsOn, LastDay(b)) && AtMost(b.startsOn, LastDay(a))
  }

  /** SQL OVERLAPS between a period with a known start and one that may lack an end. Each
      period is first put in order, so one that runs past midnight is read as the hours
      between its end and its start; an unknown answer counts as no overlap. */
  predicate Overlaps(s1: Clock, e1: Option<Clock>, s2: Clock, e2: Option<Clock>) {
    var from1 := if e1.Some? && e1.value < s1 then e1.value else s1;
    var to1 := if e1.Some? && e1.value < s1 then Some(s1) else e1;
    var from2 := if e2.Some? && e2.value < s2 then e2.value else s2;
    var to2 := if e2.Some? && e2.value < s2 then Some(s2) else e2;
    if from1 > from2 then to2.Some? && from1 < to2.value
    else if from1 < from2 then to1.Some? && from2 < to1.value
    else to1.Some? && to2.Some?
  }

  predicate HoursMeet(a: Hours, b: Hours) {
    || a.shiftStart.None?
    || b.shiftStart.None?
    || Overlaps(a.shiftStart.value, a.shiftEnd, b.shiftStart.value, b.shiftEnd)
  }

  predicate Clash(a: Hours, b: Hours) {
    DatesMeet(a, b) && HoursMeet(a, b)
  }

  lemma ClashIsSymmetric(a: Hours, b: Hours)
    ensures Clash(a, b) <==> Clash(b, a)
  {
  }

  // ---- what the rule means for somebody's day --------------------------------

  /** The dates exist and stand in order, as the table demands. */
  predicate InOrder(h: Hours) {
    Valid(h.startsOn) && Valid(LastDay(h)) && AtMost(h.startsOn, LastDay(h))
  }

  /** The hours that stay within one day: no hours at all stands for the whole day. */
  predicate SameDay(h: Hours) {
    h.shiftStart.None? || (h.shiftEnd.Some? && h.shiftStart.value <= h.shiftEnd.value)
  }

  predicate RunsPastMidnight(h: Hours) {
    h.shiftStart.Some? && h.shiftEnd.Some? && h.shiftEnd.value < h.shiftStart.value
  }

  /** Known to start, not known to end: it is taken to run to midnight. */
  predicate OpenEnded(h: Hours) { h.shiftStart.Some? && h.shiftEnd.None? }

  function From(h: Hours): int { if h.shiftStart.Some? then h.shiftStart.value else 0 }

  /** Where the hours end on the day they begin. */
  function Until(h: Hours): int {
    if h.shiftStart.None? || h.shiftEnd.None? || RunsPastMidnight(h) then 1440 else h.shiftEnd.value
  }

  /** How far they run into the next day. */
  function Tail(h: Hours): int { if RunsPastMidnight(h) then h.shiftEnd.value else 0 }

  /** Not an empty window. */
  predicate Lasts(h: Hours) { From(h) < Until(h) }

  /** A date of the work, by its number. */
  predicate On(h: Hours, day: int)
    requires InOrder(h)
  {
    Ordinal(h.startsOn) <= day <= Ordinal(LastDay(h))
  }

  /** The work promises this minute of this day: its own hours, and those after midnight of
      the day before. */
  predicate Promises(h: Hours, day: int, minute: Clock)
    requires InOrder(h)
  {
    (On(h, day) && From(h) <= minute < Until(h)) || (On(h, day - 1) && minute < Tail(h))
  }

  /** Some minute of some day is promised by both. */
  ghost predicate TwicePromised(a: Hours, b: Hours)
    requires InOrder(a) && InOrder(b)
  {
    exists day, m: Clock :: Promises(a, day, m) && Promises(b, day, m)
  }

  lemma DatesMeetByNumber(a: Hours, b: Hours)
    requires InOrder(a) && InOrder(b)
    ensures DatesMeet(a, b) <==>
      Ordinal(a.startsOn) <= Ordinal(LastDay(b)) && Ordinal(b.startsOn) <= Ordinal(LastDay(a))
    ensures Ordinal(a.startsOn) <= Ordinal(LastDay(a)) && Ordinal(b.startsOn) <= Ordinal(LastDay(b))
  {
    OrdinalKeepsOrder(a.startsOn, LastDay(b));
    OrdinalKeepsOrder(b.startsOn, LastDay(a));
    OrdinalKeepsOrder(a.startsOn, LastDay(a));
    OrdinalKeepsOrder(b.startsOn, LastDay(b));
  }

  /** The day after some day of a is a day of b. */
  predicate DayAfterMeets(a: Hours, b: Hours)
    requires InOrder(a) && InOrder(b)
  {
    Ordinal(a.startsOn) + 1 <= Ordinal(LastDay(b)) && Ordinal(b.startsOn) <= Ordinal(LastDay(a)) + 1
  }

  /** Where two pieces of work have a minute in common: in their own hours, in the tail of one
      and the hours of the other, or in both tails. */
  predicate Shares(a: Hours, b: Hours)
    requires InOrder(a) && InOrder(b)
  {
    || (DatesMeet(a, b) && From(a) < Until(a) && From(a) < Until(b) && From(b) < Until(a) && From(b) < Until(b))
    || (DayAfterMeets(a, b) && From(b) < Tail(a) && Lasts(b))
    || (DayAfterMeets(b, a) && From(a) < Tail(b) && Lasts(a))
    || (DatesMeet(a, b) && 0 < Tail(a) && 0 < Tail(b))
  }

  lemma SharedMinute(a: Hours, b: Hours, day: int, m: Clock)
    requires InOrder(a) && InOrder(b) && Promises(a, day, m) && Promises(b, day, m)
    ensures TwicePromised(a, b)
  {
  }

  lemma LaterOfTheFirsts(a: Hours, b: Hours) returns (day: int)
    requires InOrder(a) && InOrder(b) && DatesMeet(a, b)
    ensures On(a, day) && On(b, day)
  {
    DatesMeetByNumber(a, b);
    day := if Ordinal(a.startsOn) <= Ordinal(b.startsOn) then Ordinal(b.startsOn) else Ordinal(a.startsOn);
  }

  lemma DayAfterShared(a: Hours, b: Hours) returns (day: int)
    requires InOrder(a) && InOrder(b) && DayAfterMeets(a, b)
    ensures On(a, day - 1) && On(b, day)
  {
    DatesMeetByNumber(a, b);
    day := if Ordinal(a.startsOn) + 1 <= Ordinal(b.startsOn) then Ordinal(b.startsOn) else Ordinal(a.startsOn) + 1;
  }

  lemma SharesMeansTwice(a: Hours, b: Hours)
    requires InOrder(a) && InOrder(b) && Shares(a, b)
    ensures TwicePromised(a, b)
  {
    if DatesMeet(a, b) && From(a) < Until(a) && From(a) < Until(b) && From(b) < Until(a) && From(b) < Until(b) {
      var day := LaterOfTheFirsts(a, b);
      SharedMinute(a, b, day, if From(a) < From(b) then From(b) else From(a));
    } else if DayAfterMeets(a, b) && From(b) < Tail(a) && Lasts(b) {
      var day := DayAfterShared(a, b);
      SharedMinute(a, b, day, From(b));
    } else if DayAfterMeets(b, a) && From(a) < Tail(b) && Lasts(a) {
      var day := DayAfterShared(b, a);
      SharedMinute(a, b, day, From(a));
    } else {
      var day := LaterOfTheFirsts(a, b);
      SharedMinute(a, b, day + 1, 0);
    }
  }

  lemma TwiceMeansShares(a: Hours, b: Hours)
    requires InOrder(a) && InOrder(b) && TwicePromised(a, b)
    ensures Shares(a, b)
  {
    DatesMeetByNumber(a, b);
  }

  // ---- where the guard's answer is right ----------------------------------------

  /** How work a, against work b, slips past the guard: it runs into a day the guard does not
      compare; or the guard has turned its night into the hours between; or it has no end and
      the guard, not knowing, says no. */
  predicate Slips(a: Hours, b: Hours)
    requires InOrder(a) && InOrder(b)
  {
    && Lasts(b)
    && (|| (RunsPastMidnight(a) && !DatesMeet(a, b) && DayAfterMeets(a, b) && From(b) < a.shiftEnd.value)
        || (RunsPastMidnight(a) && DatesMeet(a, b) && !HoursMeet(a, b)
            && (!SameDay(b) || From(b) >= From(a) || DayAfterMeets(a, b)))
        || (OpenEnded(a) && DatesMeet(a, b) && !HoursMeet(a, b) && !RunsPastMidnight(b) && From(a) <= From(b)))
  }

  /** How the guard refuses b for the sake of a without cause: b is over as soon as it begins; or
      a runs past midnight, and b lies in the hours between, clear of the night that begins and,
      unless it is on no day after one of a's, of the night that ends. */
  predicate IsShunned(a: Hours, b: Hours)
    requires InOrder(a) && InOrder(b)
  {
    && DatesMeet(a, b) && HoursMeet(a, b)
    && (|| !Lasts(b)
        || (RunsPastMidnight(a) && SameDay(b) && b.shiftStart.Some? && Until(b) <= From(a)
            && (From(b) >= Tail(a) || !DayAfterMeets(a, b))))
  }

  /** Over all hours the table accepts: the guard misses a minute promised twice exactly when one
      piece of work slips past the other, it refuses work that shares no minute exactly when one
      is shunned, and so it is right exactly when neither happens. */
  lemma TheGuardIsRightExactly(a: Hours, b: Hours)
    requires InOrder(a) && InOrder(b)
    ensures (!Clash(a, b) && TwicePromised(a, b)) <==> Slips(a, b) || Slips(b, a)
    ensures (Clash(a, b) && !TwicePromised(a, b)) <==> IsShunned(a, b) || IsShunned(b, a)
    ensures (Clash(a, b) <==> TwicePromised(a, b)) <==>
      !Slips(a, b) && !Slips(b, a) && !IsShunned(a, b) && !IsShunned(b, a)
  {
    DatesMeetByNumber(a, b);
    if TwicePromised(a, b) { TwiceMeansShares(a, b); }
    if Shares(a, b) { SharesMeansTwice(a, b); }
    ClashIsSymmetric(a, b);
    SlippingByShares(a, b);
    ShunningByShares(a, b);
  }

  lemma SlippingByShares(a: Hours, b: Hours)
    requires InOrder(a) && InOrder(b)
    ensures (!Clash(a, b) && Shares(a, b)) <==> Slips(a, b) || Slips(b, a)
  {
    DatesMeetByNumber(a, b);
    ClashIsSymmetric(a, b);
  }

  lemma ShunningByShares(a: Hours, b: Hours)
    requires InOrder(a) && InOrder(b)
    ensures (Clash(a, b) && !Shares(a, b)) <==> IsShunned(a, b) || IsShunned(b, a)
  {
    DatesMeetByNumber(a, b);
    ClashIsSymmetric(a, b);
  }

  /** Between windows that stay within a day nothing slips: a clash of windows that last is
      exactly a minute promised twice. */
  lemma ClashIsASharedMinute(a: Hours, b: Hours)
    requires InOrder(a) && InOrder(b) && SameDay(a) && SameDay(b)
    ensures !Slips(a, b) && !Slips(b, a)
    ensures TwicePromised(a, b) <==> Clash(a, b) && Lasts(a) && Lasts(b)
  {
    TheGuardIsRightExactly(a, b);
    if TwicePromised(a, b) { TwiceMeansShares(a, b); }
    if Clash(a, b) && Lasts(a) && Lasts(b) { SharesMeansTwice(a, b); }
  }

  /** An hour late in the evening, and the night it falls into; a night begun at the last minute
      of the day, and the early shift after it; an early shift with no known end, and the
      morning inside it. None of these clash, and each promises somebody twice. And a night's
      work keeps its worker from two hours in the morning before it, which it leaves free. */
  lemma NightsAreMisread(d: Date)
    requires Valid(d) && d != Date(1, 1, 1)
    ensures var evening, night := Hours(d, None, Some(1350), Some(1410)), Hours(d, None, Some(1320), Some(360));
      SameDay(evening) && !Clash(evening, night) && TwicePromised(evening, night)
    ensures Valid(DayBefore(d))
    ensures var night, early := Hours(DayBefore(d), None, Some(1439), Some(360)), Hours(d, None, Some(120), Some(300));
      SameDay(early) && !Clash(night, early) && TwicePromised(night, early)
    ensures var open, morning := Hours(d, None, Some(480), None), Hours(d, None, Some(540), Some(600));
      SameDay(morning) && !Clash(open, morning) && TwicePromised(open, morning)
    ensures var night, morning := Hours(d, None, Some(1320), Some(360)), Hours(d, None, Some(600), Some(720));
      Clash(night, morning) && !TwicePromised(night, morning)
  {
    TheGuardIsRightExactly(Hours(d, None, Some(1320), Some(360)), Hours(d, None, Some(600), Some(720)));
    DayBeforeIsOneDayEarlier(d);
    var evening, night := Hours(d, None, Some(1350), Some(1410)), Hours(d, None, Some(1320), Some(360));
    SharedMinute(evening, night, Ordinal(d), 1350);
    var before, early := Hours(DayBefore(d), None, Some(1439), Some(360)), Hours(d, None, Some(120), Some(300));
    SharedMinute(before, early, Ordinal(d), 120);
    var open, morning := Hours(d, None, Some(480), None), Hours(d, None, Some(540), Some(600));
    SharedMinute(open, morning, Ordinal(d), 540);
  }
}
