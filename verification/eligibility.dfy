/** The rule-based eligibility decision and the penalty-based 0-100 match score. */
module Eligibility {
  import opened Wrappers
  import opened JavaNumbers
  import opened JavaStrings
  import opened Subscriptions

  /** A user's snapshot: every number is required, the region list may be absent. */
  datatype Profile = Profile(
    age: NatInt,
    annualIncome: NatLong,
    householdMembers: NatInt,
    housingOwned: NatInt,
    locationPreferences: Option<string>)

  /** Per-criterion breakdown returned to clients. */
  datatype EligibilityDetails = EligibilityDetails(
    ageEligible: bool,
    incomeEligible: bool,
    householdEligible: bool,
    housingOwnedEligible: bool,
    overallEligible: bool,
    matchScore: int)

  /**
   * The shared shape of the age, income and household checks: a value below a
   * present minimum or above a present maximum fails; anything else passes.
   */
  function WithinBounds(value: int, min: Option<int>, max: Option<int>): (ok: bool)
    ensures ok <==> (min.None? || min.value <= value) && (max.None? || value <= max.value)
  {
    if min.Some? && value < min.value then false
    else if max.Some? && value > max.value then false
    else true
  }

  /** The owned-housing check: only an upper cap. */
  function WithinCap(value: int, cap: Option<int>): (ok: bool)
    ensures ok <==> cap.None? || value <= cap.value
  {
    if cap.Some? && value > cap.value then false else true
  }

  predicate AgeEligible(p: Profile, c: Criteria) {
    WithinBounds(p.age, c.minAge, c.maxAge)
  }

  predicate IncomeEligible(p: Profile, c: Criteria) {
    WithinBounds(p.annualIncome, c.minIncome, c.maxIncome)
  }

  predicate HouseholdEligible(p: Profile, c: Criteria) {
    WithinBounds(p.householdMembers, c.minHouseholdMembers, c.maxHouseholdMembers)
  }

  predicate HousingOwnedEligible(p: Profile, c: Criteria) {
    WithinCap(p.housingOwned, c.maxHousingOwned)
  }

  /** `isEligible`: the four checks in order, stopping at the first that fails. */
  function IsEligible(p: Profile, s: Subscription): (ok: bool)
    ensures ok <==> AgeEligible(p, s.criteria) && IncomeEligible(p, s.criteria)
                    && HouseholdEligible(p, s.criteria) && HousingOwnedEligible(p, s.criteria)
  {
    var c := s.criteria;
    if !AgeEligible(p, c) then false
    else if !IncomeEligible(p, c) then false
    else if !HouseholdEligible(p, c) then false
    else if !HousingOwnedEligible(p, c) then false
    else true
  }

  /** Bounds are inclusive: the bound itself passes and one step beyond fails. */
  lemma BoundsInclusive(min: int, max: int)
    requires min <= max
    ensures WithinBounds(min, Some(min), Some(max)) && WithinBounds(max, Some(min), Some(max))
    ensures !WithinBounds(min - 1, Some(min), Some(max)) && !WithinBounds(max + 1, Some(min), Some(max))
    ensures WithinCap(max, Some(max)) && !WithinCap(max + 1, Some(max))
  {
  }

  /** An absent bound restricts nothing on its side. */
  lemma NullBoundUnrestricted(value: int, min: Option<int>, max: Option<int>)
    ensures WithinBounds(value, None, max) == WithinBounds(value, Some(value), max)
    ensures WithinBounds(value, min, None) == WithinBounds(value, min, Some(value))
    ensures WithinBounds(value, None, None) && WithinCap(value, None)
  {
  }

  /**
   * The location test of both scorers: some comma-separated preference, trimmed,
   * occurs in the offer's location. An empty token trims to "" and so matches.
   */
  function AnyTokenContained(tokens: seq<string>, location: string): (found: bool)
    ensures found <==> exists k :: 0 <= k < |tokens| && Contains(location, Trim(tokens[k]))
  {
    AnyTokenFrom(tokens, location, 0)
  }

  /** Some token at position `k` or later matches. */
  function AnyTokenFrom(tokens: seq<string>, location: string, k: nat): (found: bool)
    requires k <= |tokens|
    ensures found <==> exists j :: k <= j < |tokens| && Contains(location, Trim(tokens[j]))
    decreases |tokens| - k
  {
    if k == |tokens| then false
    else Contains(location, Trim(tokens[k])) || AnyTokenFrom(tokens, location, k + 1)
  }

  predicate PreferenceMatches(preferences: string, location: string) {
    AnyTokenContained(Split(preferences, ','), location)
  }

  /** Owning any home costs 5 points whenever the offer caps ownership. */
  predicate OwnedPenalty(p: Profile, c: Criteria) {
    c.maxHousingOwned.Some? && p.housingOwned > 0
  }

  /**
   * Income in the outer tenth of a two-sided income range costs 10 points:
   * position < range * 0.1 or position > range * 0.9, in exact arithmetic
   * (Java multiplies in doubles, which round long values of 2^53 and beyond).
   */
  predicate IncomeTailPenalty(p: Profile, c: Criteria) {
    && c.minIncome.Some? && c.maxIncome.Some?
    && var range := c.maxIncome.value - c.minIncome.value;
       var position := p.annualIncome - c.minIncome.value;
       10 * position < range || 10 * position > 9 * range
  }

  /** No preferred region matching a known location costs 15 points. */
  predicate LocationPenalty(p: Profile, s: Subscription) {
    && p.locationPreferences.Some? && s.listing.location.Some?
    && !PreferenceMatches(p.locationPreferences.value, s.listing.location.value)
  }

  /** `calculateMatchScore`. */
  function MatchScore(p: Profile, s: Subscription): (score: int)
    ensures 0 <= score <= 100
    ensures score == 0 <==> !IsEligible(p, s)
    ensures IsEligible(p, s) ==> score >= 70
    ensures score == 100 <==>
      IsEligible(p, s) && !OwnedPenalty(p, s.criteria) && !IncomeTailPenalty(p, s.criteria) && !LocationPenalty(p, s)
  {
    if !IsEligible(p, s) then 0
    else
      var owned := if OwnedPenalty(p, s.criteria) then 5 else 0;
      var income := if IncomeTailPenalty(p, s.criteria) then 10 else 0;
      var location := if LocationPenalty(p, s) then 15 else 0;
      var penalties := owned + income + location;
      if 100 - penalties < 0 then 0 else 100 - penalties
  }

  /** An eligible score is 100 less exactly the penalties that apply. */
  lemma MatchScoreDecomposition(p: Profile, s: Subscription)
    requires IsEligible(p, s)
    ensures MatchScore(p, s) == 100
      - (if OwnedPenalty(p, s.criteria) then 5 else 0)
      - (if IncomeTailPenalty(p, s.criteria) then 10 else 0)
      - (if LocationPenalty(p, s) then 15 else 0)
  {
  }

  /** A penalty that applies to one pair and not to another, all else equal, never raises the score. */
  lemma MorePenaltiesNeverRaise(p: Profile, s: Subscription, p': Profile, s': Subscription)
    requires IsEligible(p, s) && IsEligible(p', s')
    requires OwnedPenalty(p, s.criteria) ==> OwnedPenalty(p', s'.criteria)
    requires IncomeTailPenalty(p, s.criteria) ==> IncomeTailPenalty(p', s'.criteria)
    requires LocationPenalty(p, s) ==> LocationPenalty(p', s')
    ensures MatchScore(p', s') <= MatchScore(p, s)
  {
    MatchScoreDecomposition(p, s);
    MatchScoreDecomposition(p', s');
  }

  /** `getEligibilityDetails`: each flag is its check, and the summary agrees with the flags. */
  function Details(p: Profile, s: Subscription): (d: EligibilityDetails)
    ensures d.ageEligible == AgeEligible(p, s.criteria) && d.incomeEligible == IncomeEligible(p, s.criteria)
    ensures d.householdEligible == HouseholdEligible(p, s.criteria)
    ensures d.housingOwnedEligible == HousingOwnedEligible(p, s.criteria)
    ensures d.overallEligible <==> d.ageEligible && d.incomeEligible && d.householdEligible && d.housingOwnedEligible
    ensures d.matchScore == 0 <==> !d.overallEligible
    ensures 0 <= d.matchScore <= 100
    ensures d.overallEligible == IsEligible(p, s) && d.matchScore == MatchScore(p, s)
  {
    EligibilityDetails(
      AgeEligible(p, s.criteria),
      IncomeEligible(p, s.criteria),
      HouseholdEligible(p, s.criteria),
      HousingOwnedEligible(p, s.criteria),
      IsEligible(p, s),
      MatchScore(p, s))
  }
}
