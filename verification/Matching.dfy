/** The matching engine: three filters in a fixed order, then a ranking. */
module Matching {
  import opened Base
  import opened Calendar
  import opened Shifts
  import opened Sorting

  const MINIMUM_AGE := 16
  const WORKING_DAYS_PER_MONTH := 22

  datatype Gender = F | M | X | Unstated

  datatype Availability = Availability(dayOfWeek: int, from: Clock, until: Clock)

  datatype WorkRequest = WorkRequest(employer: Id, hours: Hours, payRwf: nat, payUnit: PayUnit,
                                     transportCovered: bool, requiredSkills: seq<(string, int)>)

  datatype Candidate = Candidate(
    id: Id, gender: Gender, born: Option<Date>, ageEligible: Option<bool>,
    availability: seq<Availability>, skillScores: map<string, int>, failedSkills: set<string>,
    maxCommuteRwf: Option<int>, maxCommuteMin: Option<int>,
    acceptsAfterDark: bool, placementConsent: bool,
    fareRwf: Option<nat>, commuteMin: Option<nat>, committed: bool,
    priorCompleted: nat, retention: real, assessmentScore: int)

  datatype Filter = HardExclusion | TransportViability | Safety

  datatype Reason =
    | UnderAge | NoConsent | AlreadyCommitted | Unavailable
    | SkillFailed(skill: string) | SkillMissing(skill: string) | SkillTooLow(skill: string)
    | CommuteTooLong | FareAboveCeiling | FareEatsTheWage | AfterDark

  datatype Rejection = Rejection(candidate: Candidate, filter: Filter, reason: Reason)

  datatype MatchResult = MatchResult(matches: seq<Candidate>, rejections: seq<Rejection>)

  // ---- the filters ------------------------------------------------------------

  function AgeOn(born: Date, day: Date): int {
    day.year - born.year -
      (if day.month < born.month || (day.month == born.month && day.day < born.day) then 1 else 0)
  }

  /** An age that cannot be established counts as too young. */
  predicate MeetsMinimumAge(c: Candidate, day: Date) {
    match c.ageEligible
    case Some(eligible) => eligible
    case None => c.born.Some? && AgeOn(c.born.value, day) >= MINIMUM_AGE
  }

  /** What a day pays, or nothing where the unit does not say. */
  function DailyPay(r: WorkRequest): Option<int> {
    match r.payUnit
    case PerDay => Some(r.payRwf)
    case PerMonth => Some(r.payRwf / WORKING_DAYS_PER_MONTH)
    case PerHour =>
      if r.hours.shiftStart.Some? && r.hours.shiftEnd.Some? && r.hours.shiftEnd.value > r.hours.shiftStart.value
      then Some(r.payRwf * (r.hours.shiftEnd.value - r.hours.shiftStart.value) / 60) else None
    case PerTask => None
  }

  predicate Available(c: Candidate, r: WorkRequest)
    requires 1 <= r.hours.startsOn.month <= 12
  {
    r.hours.shiftStart.Some? && r.hours.shiftEnd.Some? ==>
      exists w :: w in c.availability
        && w.dayOfWeek == Weekday(r.hours.startsOn)
        && w.from <= r.hours.shiftStart.value && w.until >= r.hours.shiftEnd.value
  }

  function SkillGap(c: Candidate, required: seq<(string, int)>): Option<Reason> {
    if required == [] then None
    else
      var (skill, least) := required[0];
      if skill !in c.skillScores
      then Some(if skill in c.failedSkills then SkillFailed(skill) else SkillMissing(skill))
      else if c.skillScores[skill] < least then Some(SkillTooLow(skill))
      else SkillGap(c, required[1..])
  }

  predicate Sane(r: WorkRequest) { Valid(r.hours.startsOn) }

  function HardExclusionOf(c: Candidate, r: WorkRequest): Option<Reason>
    requires Sane(r)
  {
    if !MeetsMinimumAge(c, r.hours.startsOn) then Some(UnderAge)
    else if !c.placementConsent then Some(NoConsent)
    else if c.committed then Some(AlreadyCommitted)
    else if !Available(c, r) then Some(Unavailable)
    else SkillGap(c, r.requiredSkills)
  }

  function TransportFailure(c: Candidate, r: WorkRequest): Option<Reason> {
    if c.maxCommuteMin.Some? && c.commuteMin.Some? && c.commuteMin.value > c.maxCommuteMin.value
    then Some(CommuteTooLong)
    else if r.transportCovered || c.fareRwf.None? then None
    else if c.maxCommuteRwf.Some? && c.fareRwf.value > c.maxCommuteRwf.value then Some(FareAboveCeiling)
    else
      var pay := DailyPay(r);
      // share >= 0.30
      if pay.Some? && pay.value > 0 && 10 * c.fareRwf.value >= 3 * pay.value then Some(FareEatsTheWage)
      else None
  }

  function SafetyFailure(c: Candidate, r: WorkRequest): Option<Reason> {
    if r.hours.shiftEnd.None? || r.hours.shiftEnd.value <= AFTER_DARK then None
    else if c.gender != F then None
    else if r.transportCovered || c.acceptsAfterDark then None
    else Some(AfterDark)
  }

  const FILTERS: seq<Filter> := [HardExclusion, TransportViability, Safety]

  function Check(f: Filter, c: Candidate, r: WorkRequest): Option<Reason>
    requires Sane(r)
  {
    match f
    case HardExclusion => HardExclusionOf(c, r)
    case TransportViability => TransportFailure(c, r)
    case Safety => SafetyFailure(c, r)
  }

  /** Passes every filter. */
  predicate Survives(c: Candidate, r: WorkRequest)
    requires Sane(r)
  {
    forall f :: f in FILTERS ==> Check(f, c, r).None?
  }

  // ---- what the filters ask, in terms of the person and the work ----------------

  /** The sixteenth birthday is on or before the day: somebody born on a 29 February has it, in a
      common year, on 1 March. A stored answer goes before a date of birth. */
  ghost predicate OldEnough(c: Candidate, day: Date) {
    if c.ageEligible.Some? then c.ageEligible.value
    else c.born.Some? && AtMost(Date(c.born.value.year + 16, c.born.value.month, c.born.value.day), day)
  }

  ghost predicate HasSkill(c: Candidate, skill: string, least: int) {
    skill in c.skillScores && c.skillScores[skill] >= least
  }

  ghost predicate HasEverySkill(c: Candidate, required: seq<(string, int)>) {
    forall i :: 0 <= i < |required| ==> HasSkill(c, required[i].0, required[i].1)
  }

  /** Within the time the candidate allows, whoever pays; and unless the employer pays or nobody
      knows the fare, within what they allow and under three tenths of a day's pay. */
  ghost predicate JourneyIsBearable(c: Candidate, r: WorkRequest) {
    && (c.maxCommuteMin.Some? && c.commuteMin.Some? ==> c.commuteMin.value <= c.maxCommuteMin.value)
    && (!r.transportCovered && c.fareRwf.Some? ==>
          && (c.maxCommuteRwf.Some? ==> c.fareRwf.value <= c.maxCommuteRwf.value)
          && (DailyPay(r).Some? && DailyPay(r).value > 0 ==> c.fareRwf.value as real < 0.3 * DailyPay(r).value as real))
  }

  /** Home by six in the evening, as far as stated, or not a woman, or fetched, or willing. */
  ghost predicate SafeToSend(c: Candidate, r: WorkRequest) {
    || (r.hours.shiftEnd.Some? ==> r.hours.shiftEnd.value <= 18 * 60)
    || c.gender != F || r.transportCovered || c.acceptsAfterDark
  }

  /** Some one window on the weekday of the first day takes in the hours, where both are stated. */
  ghost predicate HasTheTime(c: Candidate, r: WorkRequest)
    requires 1 <= r.hours.startsOn.month <= 12
  {
    r.hours.shiftStart.Some? && r.hours.shiftEnd.Some? ==>
      exists k :: 0 <= k < |c.availability| && TakesIn(c.availability[k], r)
  }

  ghost predicate TakesIn(w: Availability, r: WorkRequest)
    requires 1 <= r.hours.startsOn.month <= 12 && r.hours.shiftStart.Some? && r.hours.shiftEnd.Some?
  {
    && (w.dayOfWeek + 1 - Ordinal(r.hours.startsOn)) % 7 == 0 && 0 <= w.dayOfWeek < 7
    && w.from <= r.hours.shiftStart.value && r.hours.shiftEnd.value <= w.until
  }

  /** What a day pays: the day rate; a twenty-second of the month rate, or the hours at the hour
      rate, without the fraction of a franc; nothing for tasks, or hours not stated or not forward. */
  lemma DailyPayIsTheDaysWorth(r: WorkRequest)
    ensures r.payUnit == PerDay ==> DailyPay(r) == Some(r.payRwf)
    ensures r.payUnit == PerMonth ==>
      DailyPay(r).Some? && 22 * DailyPay(r).value <= r.payRwf < 22 * (DailyPay(r).value + 1)
    ensures r.payUnit == PerHour ==>
      var h := r.hours;
      if h.shiftStart.None? || h.shiftEnd.None? || h.shiftEnd.value <= h.shiftStart.value then DailyPay(r).None?
      else
        DailyPay(r).Some? &&
        60 * DailyPay(r).value <= r.payRwf * (h.shiftEnd.value - h.shiftStart.value) < 60 * (DailyPay(r).value + 1)
    ensures r.payUnit == PerTask ==> DailyPay(r).None?
  {
  }

  lemma {:induction false} NoGapIsEverySkill(c: Candidate, required: seq<(string, int)>)
    ensures SkillGap(c, required).None? <==> HasEverySkill(c, required)
    ensures SkillGap(c, required).Some? ==>
      exists i :: 0 <= i < |required| && IsFirstGap(c, required, i, SkillGap(c, required).value)
  {
    if required != [] {
      NoGapIsEverySkill(c, required[1..]);
      if HasSkill(c, required[0].0, required[0].1) {
        assert HasEverySkill(c, required[1..]) ==> HasEverySkill(c, required);
        if SkillGap(c, required).Some? {
          var i :| 0 <= i < |required| - 1 && IsFirstGap(c, required[1..], i, SkillGap(c, required).value);
          assert IsFirstGap(c, required, i + 1, SkillGap(c, required).value);
        }
      } else {
        assert IsFirstGap(c, required, 0, SkillGap(c, required).value);
      }
    }
  }

  /** The first skill lacking, and in which way: below the mark asked for, or never passed. */
  ghost predicate IsFirstGap(c: Candidate, required: seq<(string, int)>, i: nat, reason: Reason)
    requires i < |required|
  {
    var (skill, least) := required[i];
    && (forall j :: 0 <= j < i ==> HasSkill(c, required[j].0, required[j].1))
    && !HasSkill(c, skill, least)
    && (reason == SkillTooLow(skill) <==> skill in c.skillScores)
    && (reason == SkillFailed(skill) <==> skill !in c.skillScores && skill in c.failedSkills)
    && (reason == SkillMissing(skill) <==> skill !in c.skillScores && skill !in c.failedSkills)
  }

  lemma AvailableIsHavingTheTime(c: Candidate, r: WorkRequest)
    requires 1 <= r.hours.startsOn.month <= 12
    ensures Available(c, r) <==> HasTheTime(c, r)
  {
    if r.hours.shiftStart.Some? && r.hours.shiftEnd.Some? {
      forall w: Availability
        ensures TakesIn(w, r) <==>
          w.dayOfWeek == Weekday(r.hours.startsOn)
          && w.from <= r.hours.shiftStart.value && w.until >= r.hours.shiftEnd.value
      {
      }
      if HasTheTime(c, r) {
        var k :| 0 <= k < |c.availability| && TakesIn(c.availability[k], r);
        assert c.availability[k] in c.availability;
      }
    }
  }

  lemma OldEnoughIsTheMinimumAge(c: Candidate, day: Date)
    ensures MeetsMinimumAge(c, day) <==> OldEnough(c, day)
  {
  }

  lemma TransportAsksForABearableJourney(c: Candidate, r: WorkRequest)
    ensures TransportFailure(c, r).None? <==> JourneyIsBearable(c, r)
    ensures TransportFailure(c, r) == Some(CommuteTooLong) <==>
      c.maxCommuteMin.Some? && c.commuteMin.Some? && c.commuteMin.value > c.maxCommuteMin.value
    ensures TransportFailure(c, r) == Some(FareAboveCeiling) ==>
      !r.transportCovered && c.fareRwf.Some? && c.maxCommuteRwf.Some? && c.fareRwf.value > c.maxCommuteRwf.value
    ensures TransportFailure(c, r) == Some(FareEatsTheWage) ==>
      !r.transportCovered && c.fareRwf.Some? && DailyPay(r).Some? && 10 * c.fareRwf.value >= 3 * DailyPay(r).value > 0
    ensures TransportFailure(c, r) in {None, Some(CommuteTooLong), Some(FareAboveCeiling), Some(FareEatsTheWage)}
  {
  }

  lemma SafetyAsksForAWayHome(c: Candidate, r: WorkRequest)
    ensures SafetyFailure(c, r) == if SafeToSend(c, r) then None else Some(AfterDark)
  {
  }

  /** Everything there is to passing: age, consent, no other work in the way, the time, every
      skill, a journey that can be borne, and a safe way home. */
  ghost predicate MayDoTheWork(c: Candidate, r: WorkRequest)
    requires Sane(r)
  {
    && OldEnough(c, r.hours.startsOn) && c.placementConsent && !c.committed
    && HasTheTime(c, r) && HasEverySkill(c, r.requiredSkills)
    && JourneyIsBearable(c, r) && SafeToSend(c, r)
  }

  lemma SurvivorsAreThoseWhoMayDoTheWork(c: Candidate, r: WorkRequest)
    requires Sane(r)
    ensures Survives(c, r) <==> MayDoTheWork(c, r)
  {
    OldEnoughIsTheMinimumAge(c, r.hours.startsOn);
    AvailableIsHavingTheTime(c, r);
    NoGapIsEverySkill(c, r.requiredSkills);
    TransportAsksForABearableJourney(c, r);
    SafetyAsksForAWayHome(c, r);
    assert Survives(c, r) <==>
      Check(HardExclusion, c, r).None? && Check(TransportViability, c, r).None? && Check(Safety, c, r).None?;
  }

  /** The first hard exclusion that applies is the one named. */
  lemma HardExclusionsAreNamedInOrder(c: Candidate, r: WorkRequest)
    requires Sane(r)
    ensures var ofAge, reason := OldEnough(c, r.hours.startsOn), HardExclusionOf(c, r);
      && (reason == Some(UnderAge) <==> !ofAge)
      && (reason == Some(NoConsent) <==> ofAge && !c.placementConsent)
      && (reason == Some(AlreadyCommitted) <==> ofAge && c.placementConsent && c.committed)
      && (reason == Some(Unavailable) <==> ofAge && c.placementConsent && !c.committed && !HasTheTime(c, r))
      && (ofAge && c.placementConsent && !c.committed && HasTheTime(c, r) ==> reason == SkillGap(c, r.requiredSkills))
  {
    OldEnoughIsTheMinimumAge(c, r.hours.startsOn);
    AvailableIsHavingTheTime(c, r);
    GapsAreAboutSkills(c, r.requiredSkills);
  }

  lemma {:induction false} GapsAreAboutSkills(c: Candidate, required: seq<(string, int)>)
    ensures SkillGap(c, required).Some? ==>
      var reason := SkillGap(c, required).value;
      reason.SkillFailed? || reason.SkillMissing? || reason.SkillTooLow?
  {
    if required != [] { GapsAreAboutSkills(c, required[1..]); }
  }

  // ---- the ranking ------------------------------------------------------------

  function CommuteKey(c: Candidate): int {
    if c.commuteMin.Some? then c.commuteMin.value else 1000000
  }

  /** _rank_key(a) <= _rank_key(b): prior work, retention, score, then the shorter commute. */
  predicate RanksFirst(a: Candidate, b: Candidate) {
    if a.priorCompleted != b.priorCompleted then a.priorCompleted > b.priorCompleted
    else if a.retention != b.retention then a.retention > b.retention
    else if a.assessmentScore != b.assessmentScore then a.assessmentScore > b.assessmentScore
    else CommuteKey(a) <= CommuteKey(b)
  }

  /** Tuples of numbers compared from the front. */
  ghost predicate LexAtMost(a: seq<real>, b: seq<real>)
    requires |a| == |b|
  {
    a == [] || a[0] < b[0] || (a[0] == b[0] && LexAtMost(a[1..], b[1..]))
  }

  /** _rank_key: least first, so what is wanted high is negated; no known commute is a million. */
  ghost function RankKey(c: Candidate): (key: seq<real>)
    ensures |key| == 4
  {
    [-(c.priorCompleted as real), -c.retention, -(c.assessmentScore as real),
     if c.commuteMin.Some? then c.commuteMin.value as real else 1_000_000.0]
  }

  lemma LexOfFour(a: seq<real>, b: seq<real>)
    requires |a| == 4 == |b|
    ensures LexAtMost(a, b) <==>
      a[0] < b[0] || (a[0] == b[0] && (a[1] < b[1] || (a[1] == b[1]
        && (a[2] < b[2] || (a[2] == b[2] && a[3] <= b[3])))))
  {
    assert LexAtMost(a[3..], b[3..]) <==> a[3] <= b[3] by { assert a[3..][1..] == [] && b[3..][1..] == []; }
    assert a[2..][1..] == a[3..] && b[2..][1..] == b[3..];
    assert a[1..][1..] == a[2..] && b[1..][1..] == b[2..];
    assert LexAtMost(a[2..], b[2..]) <==> a[2] < b[2] || (a[2] == b[2] && LexAtMost(a[3..], b[3..]));
    assert LexAtMost(a[1..], b[1..]) <==> a[1] < b[1] || (a[1] == b[1] && LexAtMost(a[2..], b[2..]));
  }

  /** The order of the matches is that of the key tuples. */
  lemma RankingIsByTheKey(a: Candidate, b: Candidate)
    ensures RanksFirst(a, b) <==> LexAtMost(RankKey(a), RankKey(b))
  {
    LexOfFour(RankKey(a), RankKey(b));
  }

  lemma RankingIsAnOrder()
    ensures TotalPreorder(RanksFirst)
  {
  }

  // ---- match_candidates -------------------------------------------------------

  function Survivors(pool: seq<Candidate>, r: WorkRequest): seq<Candidate> {
    Keep(pool, c => Sane(r) && Survives(c, r))
  }

  function Excluded(pool: seq<Candidate>, r: WorkRequest): seq<Candidate> {
    Keep(pool, c => !(Sane(r) && Survives(c, r)))
  }

  function Candidates(rs: seq<Rejection>): seq<Candidate> {
    seq(|rs|, i requires 0 <= i < |rs| => rs[i].candidate)
  }

  /** The filter named is the first one failed, and the reason is that filter's. */
  ghost predicate NamesFirstFailure(x: Rejection, r: WorkRequest)
    requires Sane(r)
  {
    exists k :: 0 <= k < |FILTERS| && FILTERS[k] == x.filter
      && Check(FILTERS[k], x.candidate, r) == Some(x.reason)
      && forall j :: 0 <= j < k ==> Check(FILTERS[j], x.candidate, r).None?
  }

  method MatchCandidates(r: WorkRequest, pool: seq<Candidate>) returns (result: MatchResult)
    requires Sane(r)
    ensures StablySorts(Survivors(pool, r), result.matches, RanksFirst)
    ensures Candidates(result.rejections) == Excluded(pool, r)
    ensures forall x :: x in result.rejections ==> NamesFirstFailure(x, r)
  {
    var survivors: seq<Candidate> := [];
    var rejections: seq<Rejection> := [];
    for i := 0 to |pool|
      invariant survivors == Survivors(pool[..i], r)
      invariant Candidates(rejections) == Excluded(pool[..i], r)
      invariant forall x :: x in rejections ==> NamesFirstFailure(x, r)
    {
      assert pool[..i + 1][..i] == pool[..i];
      var failed := false;
      var k := 0;
      while k < |FILTERS| && !failed
        invariant 0 <= k <= |FILTERS|
        invariant !failed ==> survivors == Survivors(pool[..i], r) && Candidates(rejections) == Excluded(pool[..i], r)
        invariant !failed ==> forall j :: 0 <= j < k ==> Check(FILTERS[j], pool[i], r).None?
        invariant failed ==> survivors == Survivors(pool[..i + 1], r) && Candidates(rejections) == Excluded(pool[..i + 1], r)
        invariant forall x :: x in rejections ==> NamesFirstFailure(x, r)
        decreases |FILTERS| - k, !failed
      {
        var failure := Check(FILTERS[k], pool[i], r);
        if failure.Some? {
          var x := Rejection(pool[i], FILTERS[k], failure.value);
          assert NamesFirstFailure(x, r);
          assert FILTERS[k] in FILTERS && !Survives(pool[i], r);
          assert Candidates(rejections + [x]) == Candidates(rejections) + [pool[i]];
          rejections := rejections + [x];
          failed := true;
        } else {
          k := k + 1;
        }
      }
      if !failed { survivors := survivors + [pool[i]]; }
    }
    assert pool[..|pool|] == pool;
    RankingIsAnOrder();
    StableSortSorts(survivors, RanksFirst);
    survivors := StableSort(survivors, RanksFirst);
    result := MatchResult(survivors, rejections);
  }

  /** Nobody is lost and nobody is counted twice: survivors and exclusions partition the pool. */
  lemma PoolIsPartitioned(pool: seq<Candidate>, r: WorkRequest)
    requires Sane(r)
    ensures multiset(Survivors(pool, r)) + multiset(Excluded(pool, r)) == multiset(pool)
    ensures forall c :: c in Survivors(pool, r) <==> c in pool && Survives(c, r)
    ensures forall c :: c in Excluded(pool, r) <==> c in pool && !Survives(c, r)
  {
    var passes := c => Sane(r) && Survives(c, r);
    var fails := c => !(Sane(r) && Survives(c, r));
    KeepPartitions(pool, passes, fails);
    KeepHolds(pool, passes);
    KeepHolds(pool, fails);
  }

  // ---- rights: the list the matcher, the cover search and the cover write share ----

  datatype RightsFilter = HardRight | TransportRight | SafetyRight

  function RightsExclusion(c: Candidate, r: WorkRequest): Option<(RightsFilter, Reason)>
    requires Sane(r)
  {
    if !(c.ageEligible == Some(true)) && !MeetsMinimumAge(c, r.hours.startsOn) then Some((HardRight, UnderAge))
    else if !c.placementConsent then Some((HardRight, NoConsent))
    else
      var transport := TransportFailure(c, r);
      if transport.Some? then Some((TransportRight, transport.value))
      else
        var safety := SafetyFailure(c, r);
        if safety.Some? then Some((SafetyRight, safety.value)) else None
  }

  /** Cleared by rights_exclusion means: old enough, consenting, able to afford and bear the
      journey, and safe to send. The candidate's other commitments and skills do not matter. */
  lemma RightsAreTheFourTests(c: Candidate, r: WorkRequest)
    requires Sane(r)
    ensures RightsExclusion(c, r).None? <==>
      MeetsMinimumAge(c, r.hours.startsOn) && c.placementConsent
      && TransportFailure(c, r).None? && SafetyFailure(c, r).None?
    ensures RightsExclusion(c.(committed := !c.committed, skillScores := map[]), r) == RightsExclusion(c, r)
  {
  }

  /** The first right that fails is the one named, under its own filter. */
  lemma RightsAreNamedInOrder(c: Candidate, r: WorkRequest)
    requires Sane(r)
    ensures var named := RightsExclusion(c, r);
      var ofAge, journey := OldEnough(c, r.hours.startsOn), JourneyIsBearable(c, r);
      && (named == Some((HardRight, UnderAge)) <==> !ofAge)
      && (named == Some((HardRight, NoConsent)) <==> ofAge && !c.placementConsent)
      && (named.Some? && named.value.0 == TransportRight <==> ofAge && c.placementConsent && !journey)
      && (named == Some((SafetyRight, AfterDark)) <==> ofAge && c.placementConsent && journey && !SafeToSend(c, r))
      && (named.None? <==> ofAge && c.placementConsent && journey && SafeToSend(c, r))
  {
    OldEnoughIsTheMinimumAge(c, r.hours.startsOn);
    TransportAsksForABearableJourney(c, r);
    SafetyAsksForAWayHome(c, r);
  }

  /** Everybody the matcher lets through is cleared by rights_exclusion, and whoever it clears
      can only be turned away by the matcher for commitment, availability or skill. */
  lemma MatcherAgreesOnRights(c: Candidate, r: WorkRequest)
    requires Sane(r)
    ensures Survives(c, r) ==> RightsExclusion(c, r).None?
    ensures RightsExclusion(c, r).None? && !c.committed && Available(c, r) && SkillGap(c, r.requiredSkills).None?
      ==> Survives(c, r)
  {
    assert HardExclusion in FILTERS && TransportViability in FILTERS && Safety in FILTERS;
  }

  // ---- what the after-dark filter sees ------------------------------------------

  /** Some minute of the night is worked on some day. The night runs from AFTER_DARK to dawn,
      which the code does not know and is given here. */
  ghost predicate WorksInTheDark(h: Hours, dawn: Clock)
    requires InOrder(h)
  {
    exists day, m: Clock :: (m >= AFTER_DARK || m < dawn) && Promises(h, day, m)
  }

  /** The safety filter looks at nothing but the time the work ends. For a woman with no opt-in and
      no paid transport, and wherever dawn is put, it refuses exactly the work that goes into the
      night, if and only if the end is stated, and: work that has no start or runs past midnight
      ends after nightfall; other work that ends after nightfall lasts at all; and other work that
      ends by nightfall does not begin before dawn. */
  lemma SafetySeesExactlyStatedEveningEnds(c: Candidate, r: WorkRequest, dawn: Clock)
    requires c.gender == F && !c.acceptsAfterDark && !r.transportCovered && InOrder(r.hours)
    requires dawn <= AFTER_DARK
    ensures (SafetyFailure(c, r).Some? <==> WorksInTheDark(r.hours, dawn)) <==>
      r.hours.shiftEnd.Some? &&
      if r.hours.shiftStart.None? || RunsPastMidnight(r.hours) then r.hours.shiftEnd.value > AFTER_DARK
      else if r.hours.shiftEnd.value > AFTER_DARK then Lasts(r.hours)
      else !Lasts(r.hours) || From(r.hours) >= dawn
  {
    var h := r.hours;
    OrdinalKeepsOrder(h.startsOn, LastDay(h));
    if Lasts(h) && Until(h) > AFTER_DARK {
      var m: Clock := Until(h) - 1;
      assert Promises(h, Ordinal(h.startsOn), m);
    }
    if Lasts(h) && From(h) < dawn {
      var m: Clock := From(h);
      assert Promises(h, Ordinal(h.startsOn), m);
    }
  }

  /** Work from one to five in the morning, and a night from ten to six, both pass, though both are
      worked in the dark. */
  lemma TheSmallHoursPass(c: Candidate, r: WorkRequest, dawn: Clock)
    requires InOrder(r.hours) && 60 < dawn <= AFTER_DARK
    requires (r.hours.shiftStart, r.hours.shiftEnd) in {(Some(60), Some(300)), (Some(1320), Some(360))}
    ensures SafetyFailure(c, r).None? && WorksInTheDark(r.hours, dawn)
  {
    var h := r.hours;
    OrdinalKeepsOrder(h.startsOn, LastDay(h));
    var m: Clock := From(h);
    assert Promises(h, Ordinal(h.startsOn), m);
  }

  // ---- what availability is asked ------------------------------------------------

  /** Some window of this weekday takes in this minute. */
  predicate FreeAt(c: Candidate, weekday: int, minute: Clock) {
    exists w :: w in c.availability && w.dayOfWeek == weekday && w.from <= minute < w.until
  }

  /** Free for every minute the work promises, on whatever days it falls. */
  ghost predicate FreeThroughout(c: Candidate, h: Hours)
    requires InOrder(h)
  {
    forall day, m: Clock :: Promises(h, day, m) ==> FreeAt(c, (day + 6) % 7, m)
  }

  function Anybody(free: seq<Availability>): Candidate {
    Candidate(0, F, None, None, free, map[], {}, None, None, false, false, None, None, false, 0, 0.0, 0)
  }

  /** Availability is asked of the first day, of one window, and of bare times of day. That the
      test passes means being free for all of the work, for everybody it passes, exactly when the
      work states both its hours and is an empty window or stays within a single day. */
  lemma AvailableMeansFreeExactlyForOneDaysWork(r: WorkRequest)
    requires Sane(r) && InOrder(r.hours)
    ensures (forall c: Candidate :: Available(c, r) ==> FreeThroughout(c, r.hours)) <==>
      && r.hours.shiftStart.Some? && r.hours.shiftEnd.Some?
      && (!Lasts(r.hours) || (SameDay(r.hours) && r.hours.startsOn == LastDay(r.hours)))
  {
    var h := r.hours;
    OrdinalKeepsOrder(h.startsOn, LastDay(h));
    if !Lasts(h) {
      assert forall day, m: Clock :: !Promises(h, day, m);
    } else if h.shiftStart.None? || h.shiftEnd.None? {
      NotFree(r, [], Ordinal(h.startsOn), From(h));
    } else if RunsPastMidnight(h) {
      NotFree(r, [Availability(Weekday(h.startsOn), 0, h.shiftStart.value)], Ordinal(h.startsOn), From(h));
    } else if h.startsOn != LastDay(h) {
      OrdinalKeepsOrder(LastDay(h), h.startsOn);
      NotFree(r, [Availability(Weekday(h.startsOn), From(h), Until(h))], Ordinal(h.startsOn) + 1, From(h));
    } else {
      forall c: Candidate | Available(c, r) ensures FreeThroughout(c, h) {
        var w :| w in c.availability && w.dayOfWeek == Weekday(h.startsOn)
          && w.from <= h.shiftStart.value && w.until >= h.shiftEnd.value;
        forall day, m: Clock | Promises(h, day, m) ensures FreeAt(c, (day + 6) % 7, m) { }
      }
    }
  }

  lemma NotFree(r: WorkRequest, free: seq<Availability>, day: int, m: Clock)
    requires Sane(r) && InOrder(r.hours) && Available(Anybody(free), r)
    requires Promises(r.hours, day, m) && !FreeAt(Anybody(free), (day + 6) % 7, m)
    ensures !forall c: Candidate :: Available(c, r) ==> FreeThroughout(c, r.hours)
  {
    assert !FreeThroughout(Anybody(free), r.hours);
  }
}
