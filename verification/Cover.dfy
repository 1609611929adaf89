/** Same-day cover: who could still work the rest of a shift that is already going wrong. */
module Cover {
  import opened Base
  import opened Calendar
  import opened Shifts
  import opened Sorting
  import opened Matching

  const MOBILISATION_MINUTES := 20
  const MINIMUM_USEFUL_MINUTES := 60
  const LONGEST_WINDOW := 16 * 60

  datatype Obstacle =
    | Rights(filter: RightsFilter, reason: Reason)
    | AlreadyWorking
    | NoHomeLocation
    | CannotArrive
    | TooLittleLeft

  datatype CoverOption = CoverOption(candidate: Candidate, arrivesAt: Clock, minutesCovered: int)

  datatype CoverRejection = CoverRejection(candidate: Candidate, obstacle: Obstacle)

  datatype CoverResult = CoverResult(options: seq<CoverOption>, rejections: seq<CoverRejection>,
                                     minutesRemaining: int, viable: bool)

  /** Minutes from one time of day to another, wrapping past midnight. */
  function MinutesBetween(from: Clock, until: Clock): int {
    if until >= from then until - from else until - from + 1440
  }

  /** What is left of the shift; more than sixteen hours is read as a shift already over. */
  function Remaining(clock: Clock, shiftEnd: Clock): int {
    var left := MinutesBetween(clock, shiftEnd);
    if left > LONGEST_WINDOW then 0 else left
  }

  function CoverExclusion(c: Candidate, r: WorkRequest, remaining: int): Option<Obstacle>
    requires Sane(r)
  {
    var rights := RightsExclusion(c, r);
    if rights.Some? then Some(Rights(rights.value.0, rights.value.1))
    else if c.committed then Some(AlreadyWorking)
    else if c.commuteMin.None? then Some(NoHomeLocation)
    else if MOBILISATION_MINUTES + c.commuteMin.value >= remaining then Some(CannotArrive)
    else if remaining - (MOBILISATION_MINUTES + c.commuteMin.value) < MINIMUM_USEFUL_MINUTES then Some(TooLittleLeft)
    else None
  }

  /** _cover_rank(a) <= _cover_rank(b) */
  predicate CoversFirst(a: CoverOption, b: CoverOption) {
    if a.minutesCovered != b.minutesCovered then a.minutesCovered > b.minutesCovered
    else if a.candidate.priorCompleted != b.candidate.priorCompleted
    then a.candidate.priorCompleted > b.candidate.priorCompleted
    else if a.candidate.retention != b.candidate.retention then a.candidate.retention > b.candidate.retention
    else a.candidate.assessmentScore >= b.candidate.assessmentScore
  }

  ghost function CoverKey(o: CoverOption): (key: seq<real>)
    ensures |key| == 4
  {
    [-(o.minutesCovered as real), -(o.candidate.priorCompleted as real), -o.candidate.retention,
     -(o.candidate.assessmentScore as real)]
  }

  /** The order of the options is that of the key tuples. */
  lemma CoverRankingIsByTheKey(a: CoverOption, b: CoverOption)
    ensures CoversFirst(a, b) <==> LexAtMost(CoverKey(a), CoverKey(b))
  {
    LexOfFour(CoverKey(a), CoverKey(b));
  }

  /** What is named against somebody is the first thing against them: a right, other work, no known
      home, arriving when it is over, or arriving with less than an hour left. */
  lemma ObstaclesAreNamedInOrder(c: Candidate, r: WorkRequest, remaining: int)
    requires Sane(r)
    ensures var rights := OldEnough(c, r.hours.startsOn) && c.placementConsent && JourneyIsBearable(c, r) && SafeToSend(c, r);
      var named := CoverExclusion(c, r, remaining);
      && (named.Some? && named.value.Rights? <==> !rights)
      && (named == Some(AlreadyWorking) <==> rights && c.committed)
      && (named == Some(NoHomeLocation) <==> rights && !c.committed && c.commuteMin.None?)
      && (named == Some(CannotArrive) <==>
            rights && !c.committed && c.commuteMin.Some? && 20 + c.commuteMin.value >= remaining)
      && (named == Some(TooLittleLeft) <==>
            rights && !c.committed && c.commuteMin.Some? && 0 < remaining - 20 - c.commuteMin.value < 60)
  {
    RightsAreTheFourTests(c, r);
    OldEnoughIsTheMinimumAge(c, r.hours.startsOn);
    TransportAsksForABearableJourney(c, r);
    SafetyAsksForAWayHome(c, r);
  }

  predicate Reaches(c: Candidate, r: WorkRequest, remaining: int) {
    Sane(r) && CoverExclusion(c, r, remaining).None?
  }

  /** The people who could be sent, in pool order. */
  function Sendable(pool: seq<Candidate>, r: WorkRequest, remaining: int): seq<Candidate> {
    Keep(pool, c => Reaches(c, r, remaining))
  }

  function NotSendable(pool: seq<Candidate>, r: WorkRequest, remaining: int): seq<Candidate> {
    Keep(pool, c => !Reaches(c, r, remaining))
  }

  function OptionCandidates(os: seq<CoverOption>): seq<Candidate> {
    seq(|os|, i requires 0 <= i < |os| => os[i].candidate)
  }

  function RejectionCandidates(xs: seq<CoverRejection>): seq<Candidate> {
    seq(|xs|, i requires 0 <= i < |xs| => xs[i].candidate)
  }

  /** What an option promises: the minutes covered are the minutes remaining less the twenty to
      get moving and the commute, and arrival plus those minutes is the end of the shift. */
  ghost predicate KeepsItsPromise(o: CoverOption, r: WorkRequest, clock: Clock, remaining: int)
    requires Sane(r) && r.hours.shiftEnd.Some?
  {
    && o.candidate.commuteMin.Some?
    && o.minutesCovered == remaining - (MOBILISATION_MINUTES + o.candidate.commuteMin.value)
    && MINIMUM_USEFUL_MINUTES <= o.minutesCovered <= remaining <= LONGEST_WINDOW
    && o.arrivesAt == (clock + MOBILISATION_MINUTES + o.candidate.commuteMin.value) % 1440
    && (o.arrivesAt + o.minutesCovered) % 1440 == r.hours.shiftEnd.value
    && !o.candidate.committed
    && RightsExclusion(o.candidate, r).None?
  }

  lemma ArrivalIsExact(clock: Clock, shiftEnd: Clock, arrivalIn: int)
    requires 0 <= arrivalIn && arrivalIn + MINIMUM_USEFUL_MINUTES <= Remaining(clock, shiftEnd)
    ensures MinutesBetween((clock + arrivalIn) % 1440, shiftEnd) == Remaining(clock, shiftEnd) - arrivalIn
    ensures ((clock + arrivalIn) % 1440 + Remaining(clock, shiftEnd) - arrivalIn) % 1440 == shiftEnd
  {
    assert clock + arrivalIn < 2880;
  }

  method FindCover(pool: seq<Candidate>, r: WorkRequest, clock: Clock) returns (result: CoverResult)
    requires Sane(r)
    ensures result.viable <==>
      r.hours.shiftEnd.Some? && Remaining(clock, r.hours.shiftEnd.value) >= MINIMUM_USEFUL_MINUTES
    ensures !result.viable ==> result.options == [] && result.rejections == []
    ensures r.hours.shiftEnd.Some? ==> result.minutesRemaining == Remaining(clock, r.hours.shiftEnd.value)
    ensures result.viable ==>
      && (exists inPoolOrder :: StablySorts(inPoolOrder, result.options, CoversFirst)
            && OptionCandidates(inPoolOrder) == Sendable(pool, r, result.minutesRemaining))
      && multiset(OptionCandidates(result.options)) == multiset(Sendable(pool, r, result.minutesRemaining))
      && RejectionCandidates(result.rejections) == NotSendable(pool, r, result.minutesRemaining)
      && (forall o :: o in result.options ==> KeepsItsPromise(o, r, clock, result.minutesRemaining))
      && (forall x :: x in result.rejections
           ==> CoverExclusion(x.candidate, r, result.minutesRemaining) == Some(x.obstacle))
  {
    if r.hours.shiftEnd.None? { return CoverResult([], [], 0, false); }
    var shiftEnd := r.hours.shiftEnd.value;
    var remaining := MinutesBetween(clock, shiftEnd);
    if remaining > LONGEST_WINDOW { remaining := 0; }
    if remaining < MINIMUM_USEFUL_MINUTES { return CoverResult([], [], remaining, false); }

    var options: seq<CoverOption> := [];
    var rejections: seq<CoverRejection> := [];
    for i := 0 to |pool|
      invariant OptionCandidates(options) == Sendable(pool[..i], r, remaining)
      invariant RejectionCandidates(rejections) == NotSendable(pool[..i], r, remaining)
      invariant forall o :: o in options ==> KeepsItsPromise(o, r, clock, remaining)
      invariant forall x :: x in rejections ==> CoverExclusion(x.candidate, r, remaining) == Some(x.obstacle)
    {
      assert pool[..i + 1][..i] == pool[..i];
      var failure := CoverExclusion(pool[i], r, remaining);
      if failure.Some? {
        var x := CoverRejection(pool[i], failure.value);
        assert RejectionCandidates(rejections + [x]) == RejectionCandidates(rejections) + [pool[i]];
        rejections := rejections + [x];
      } else {
        var arrivalIn := MOBILISATION_MINUTES + pool[i].commuteMin.value;
        ArrivalIsExact(clock, shiftEnd, arrivalIn);
        var arrives: Clock := (clock + arrivalIn) % 1440;
        var o := CoverOption(pool[i], arrives, MinutesBetween(arrives, shiftEnd));
        assert OptionCandidates(options + [o]) == OptionCandidates(options) + [pool[i]];
        options := options + [o];
      }
    }
    assert pool[..|pool|] == pool;
    StableSortSorts(options, CoversFirst);
    SameCandidates(StableSort(options, CoversFirst), options);
    forall o | o in StableSort(options, CoversFirst) ensures o in options {
      assert o in multiset(StableSort(options, CoversFirst));
    }
    options := StableSort(options, CoversFirst);
    result := CoverResult(options, rejections, remaining, true);
  }

  lemma {:induction false} CandidateCounts(a: seq<CoverOption>, o: CoverOption, k: nat)
    requires k < |a| && a[k] == o
    ensures multiset(OptionCandidates(a)) ==
      multiset{o.candidate} + multiset(OptionCandidates(a[..k] + a[k + 1..]))
  {
    var cs := OptionCandidates(a);
    assert cs == cs[..k] + ([cs[k]] + cs[k + 1..]);
    assert OptionCandidates(a[..k] + a[k + 1..]) == cs[..k] + cs[k + 1..];
  }

  lemma {:induction false} SameCandidates(a: seq<CoverOption>, b: seq<CoverOption>)
    requires multiset(a) == multiset(b)
    ensures multiset(OptionCandidates(a)) == multiset(OptionCandidates(b))
    decreases |a|
  {
    assert |multiset(a)| == |multiset(b)|;
    if a != [] {
      assert a[0] in multiset(b);
      var k :| 0 <= k < |b| && b[k] == a[0];
      CandidateCounts(a, a[0], 0);
      CandidateCounts(b, a[0], k);
      var rest := b[..k] + b[k + 1..];
      assert a == [a[0]] + a[1..] && b == b[..k] + ([b[k]] + b[k + 1..]);
      assert multiset(rest) == multiset(b) - multiset{a[0]};
      assert a[..0] + a[1..] == a[1..];
      SameCandidates(a[1..], rest);
    }
  }

  /** Sendable and not sendable partition the pool; nobody is sendable without the rights the
      matcher also demands, whatever the time of day. */
  lemma CoverPartitionsThePool(pool: seq<Candidate>, r: WorkRequest, remaining: int)
    requires Sane(r)
    ensures multiset(Sendable(pool, r, remaining)) + multiset(NotSendable(pool, r, remaining)) == multiset(pool)
    ensures forall c :: c in Sendable(pool, r, remaining) ==> c in pool && RightsExclusion(c, r).None?
  {
    var yes := c => Reaches(c, r, remaining);
    var no := c => !Reaches(c, r, remaining);
    KeepPartitions(pool, yes, no);
    KeepHolds(pool, yes);
  }

  /** The list is in order of the minutes it buys the employer. */
  lemma LongestCoverFirst(options: seq<CoverOption>)
    requires SortedBy(options, CoversFirst)
    ensures forall i, j :: 0 <= i < j < |options| ==> options[i].minutesCovered >= options[j].minutesCovered
  {
    forall i, j | 0 <= i < j < |options| ensures options[i].minutesCovered >= options[j].minutesCovered {
      assert CoversFirst(options[i], options[j]);
    }
  }

  // ---- the clock and the calendar -------------------------------------------------

  /** A shift from one moment to another, in minutes that do not start again at midnight. */
  ghost predicate IsShift(start: int, end: int) { start <= end <= start + 1440 }

  /** What is still to be worked of it: all of it before it starts, nothing once it is over. */
  function ReallyRemaining(now: int, start: int, end: int): int {
    if now >= end then 0 else if now >= start then end - now else end - start
  }

  function TimeOf(moment: int): Clock { moment % 1440 }

  /** The search knows the time but neither the date nor when the shift starts. Over all moments
      and all shifts, its figure is right exactly: before the start, if it is asked at
      the very time of day the shift starts, for a shift of at most sixteen hours; during the
      shift, while at most sixteen hours are left; afterwards, if by the clock the shift ended
      less than eight hours ago. (For an empty window, also more than sixteen hours before it.) */
  lemma RemainingIsRightExactly(now: int, start: int, end: int)
    requires IsShift(start, end)
    ensures Remaining(TimeOf(now), TimeOf(end)) == ReallyRemaining(now, start, end) <==>
      if now < start then
        ((start - now) % 1440 == 0 && end - start <= LONGEST_WINDOW)
        || (start == end && (start - now) % 1440 > LONGEST_WINDOW)
      else if now <= end then end - now <= LONGEST_WINDOW
      else (now - end) % 1440 < 480
  {
    ClockDistance(now, end);
    ClockDistance(now, start);
  }

  lemma ClockDistance(now: int, then_: int)
    ensures MinutesBetween(TimeOf(now), TimeOf(then_)) == (then_ - now) % 1440
    ensures (then_ - now) % 1440 == 0 <==> (now - then_) % 1440 == 0
    ensures (then_ - now) % 1440 != 0 ==> (then_ - now) % 1440 + (now - then_) % 1440 == 1440
  {
  }

  /** At ten in the morning, for a shift that ended at four the afternoon before, the search sees
      six hours left and goes on to look for somebody. */
  lemma YesterdaysShiftLooksOpen(today: int)
    ensures var now, start, end := today * 1440 + 600, (today - 1) * 1440 + 480, (today - 1) * 1440 + 960;
      && ReallyRemaining(now, start, end) == 0
      && Remaining(TimeOf(now), TimeOf(end)) == 360 >= MINIMUM_USEFUL_MINUTES
  {
    assert TimeOf(today * 1440 + 600) == 600 && TimeOf((today - 1) * 1440 + 960) == 960;
  }

  /** At ten in the evening, for a shift from eight to noon the next morning, it sees fourteen
      hours left, of four. */
  lemma TomorrowsShiftLooksLong(today: int)
    ensures var now, start, end := today * 1440 + 1320, (today + 1) * 1440 + 480, (today + 1) * 1440 + 720;
      && ReallyRemaining(now, start, end) == 240
      && Remaining(TimeOf(now), TimeOf(end)) == 840
  {
    assert TimeOf(today * 1440 + 1320) == 1320 && TimeOf((today + 1) * 1440 + 720) == 720;
  }

  /** Setting out now, with twenty minutes to get moving and the commute, a full hour of the shift
      can be worked. */
  ghost predicate AnHourCanBeWorked(c: Candidate, now: int, start: int, end: int)
    requires c.commuteMin.Some?
  {
    var arrives := now + MOBILISATION_MINUTES + c.commuteMin.value;
    end - (if arrives < start then start else arrives) >= MINIMUM_USEFUL_MINUTES
  }

  /** From sixteen hours before its end, and until eight hours after it by the clock, somebody with
      the right to go, free and locatable, is offered exactly when they could work an hour of the
      shift, unless they could be there an hour before the end of a shift shorter than that. */
  lemma OfferedExactlyWhileAnHourCanBeWorked(c: Candidate, r: WorkRequest, now: int, start: int, end: int)
    requires Sane(r) && RightsExclusion(c, r).None? && !c.committed && c.commuteMin.Some?
    requires IsShift(start, end)
    requires if now <= end then end - now <= LONGEST_WINDOW else (now - end) % 1440 < 480
    ensures (Reaches(c, r, Remaining(TimeOf(now), TimeOf(end))) <==> AnHourCanBeWorked(c, now, start, end)) <==>
      end - start >= MINIMUM_USEFUL_MINUTES
      || now + MOBILISATION_MINUTES + c.commuteMin.value + MINIMUM_USEFUL_MINUTES > end
  {
    ClockDistance(now, end);
  }

  /** At six, for a shift from eight to half past, anybody ten minutes away with the right to go is
      offered, though half an hour is all there is. */
  lemma AShortShiftIsStillOffered(c: Candidate, r: WorkRequest, today: int)
    requires Sane(r) && RightsExclusion(c, r).None? && !c.committed && c.commuteMin == Some(10)
    ensures var now, start, end := today * 1440 + 360, today * 1440 + 480, today * 1440 + 510;
      Reaches(c, r, Remaining(TimeOf(now), TimeOf(end))) && !AnHourCanBeWorked(c, now, start, end)
  {
    ClockDistance(today * 1440 + 360, today * 1440 + 510);
  }

  lemma WithinTheDay(now: int, end: int)
    requires now <= end <= now + LONGEST_WINDOW
    ensures Remaining(TimeOf(now), TimeOf(end)) == end - now
  {
    ClockDistance(now, end);
  }

  lemma LessTimeFewerPeople(pool: seq<Candidate>, r: WorkRequest, less: int, more: int)
    requires Sane(r) && less <= more
    ensures multiset(Sendable(pool, r, less)) <= multiset(Sendable(pool, r, more))
  {
    KeepCounts(pool, c => Reaches(c, r, less));
    KeepCounts(pool, c => Reaches(c, r, more));
  }

  /** Until its end, from sixteen hours before it, the list of people who could be sent only
      shrinks: whoever may be sent later could have been sent earlier. */
  lemma WaitingOnlyLosesPeople(pool: seq<Candidate>, r: WorkRequest, now: int, later: int, end: int)
    requires Sane(r) && now <= later <= end <= now + LONGEST_WINDOW
    ensures multiset(Sendable(pool, r, Remaining(TimeOf(later), TimeOf(end)))) <=
      multiset(Sendable(pool, r, Remaining(TimeOf(now), TimeOf(end))))
  {
    WithinTheDay(now, end);
    WithinTheDay(later, end);
    LessTimeFewerPeople(pool, r, end - later, end - now);
  }
}
