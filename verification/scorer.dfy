/** The five-axis detailed match score and its reason text. */
module Scorer {
  import opened Wrappers
  import opened JavaNumbers
  import opened Subscriptions
  import opened Eligibility

  /** The breakdown returned to clients; axis fields stay 0 when the user is ineligible. */
  datatype MatchScoreResult = MatchScoreResult(
    subscriptionId: nat,
    subscriptionName: Option<string>,
    isEligible: bool,
    overallScore: int,
    ageScore: int,
    incomeScore: int,
    householdScore: int,
    housingOwnedScore: int,
    locationScore: int,
    reason: string)

  const AGE_MAX := 10
  const INCOME_MAX := 30
  const HOUSEHOLD_MAX := 10
  const HOUSING_MAX := 20
  const LOCATION_MAX := 30

  const INELIGIBLE_REASON := "자격 조건 미달"

  /**
   * Age axis: 7 near a bound (within five years of the minimum or the maximum),
   * 10 otherwise. `minAge + 5` is 32-bit arithmetic and wraps for a minimum
   * within five of the largest int.
   */
  function AgeScore(age: NatInt, min: Option<NatInt>, max: Option<NatInt>): (score: int)
    ensures score == 7 || score == 10
    ensures min.None? && max.None? ==> score == 10
    ensures (min.None? || min.value <= INT_MAX - 5) ==>
      (score == 7 <==> (min.Some? && age - min.value < 5) || (max.Some? && max.value - age < 5))
  {
    if min.None? && max.None? then 10
    else if min.Some? && age < Wrap32(min.value + 5) then 7
    else if max.Some? && age > max.value - 5 then 7
    else 10
  }

  /** A minimum age this close to the int limit wraps to a negative threshold, so the user reads as far from it. */
  lemma AgeThresholdWraps()
    ensures AgeScore(INT_MAX, Some(INT_MAX - 2), None) == 10
  {
  }

  /**
   * Income axis: with both bounds, the position of the income within the range
   * as a fraction: 30 in [0.2, 0.8], 25 in [0.1, 0.9], else 20; an empty range
   * is 0/0, NaN, and so 20. One bound gives 25, none gives 30.
   */
  function IncomeScore(income: NatLong, min: Option<NatLong>, max: Option<NatLong>): (score: int)
    ensures score == 20 || score == 25 || score == 30
    ensures min.None? && max.None? ==> score == 30
    ensures min.Some? != max.Some? ==> score == 25
    ensures min.Some? && max.Some? && min.value < max.value ==>
      var range := max.value - min.value;
      var position := income - min.value;
      && (score == 30 <==> range <= 5 * position && 5 * position <= 4 * range)
      && (score == 20 <==> 10 * position < range || 10 * position > 9 * range)
    ensures min.Some? && max.Some? && min.value == max.value && income == min.value ==> score == 20
  {
    if min.None? && max.None? then 30
    else if min.Some? && max.Some? then
      var range := max.value - min.value;
      var position := income - min.value;
      if RatioAtLeast(position, range, 2, 10) && RatioAtMost(position, range, 8, 10) then 30
      else if RatioAtLeast(position, range, 1, 10) && RatioAtMost(position, range, 9, 10) then 25
      else 20
    else 25
  }

  /**
   * Household axis: with both bounds, the distance from the integer midpoint of
   * the range: 10 at it, 8 one away, 6 further. One bound gives 8, none gives 10.
   * The sum, the difference and the absolute value are 32-bit.
   */
  function HouseholdScore(members: NatInt, min: Option<NatInt>, max: Option<NatInt>): (score: int)
    ensures score == 6 || score == 8 || score == 10
    ensures min.None? && max.None? ==> score == 10
    ensures min.Some? != max.Some? ==> score == 8
    ensures min.Some? && max.Some? && min.value + max.value <= INT_MAX ==>
      var middle := (min.value + max.value) / 2;
      && (score == 10 <==> members == middle)
      && (score == 8 <==> Abs(members - middle) == 1)
  {
    if min.None? && max.None? then 10
    else if min.Some? && max.Some? then
      var middle := Half(Wrap32(min.value + max.value));
      var distance := AbsInt(Wrap32(members - middle));
      if distance == 0 then 10
      else if distance <= 1 then 8
      else 6
    else 8
  }

  /**
   * Owned-housing axis: 20 without a cap; with a zero cap, 20 for owning nothing
   * and 0 for owning anything; otherwise by the share of the cap used: up to a
   * half 20, up to three quarters 15, beyond 10.
   */
  function HousingOwnedScore(owned: NatInt, cap: Option<NatInt>): (score: int)
    ensures score in {0, 10, 15, 20}
    ensures cap.None? ==> score == 20
    ensures cap == Some(0) ==> (score == 20 <==> owned == 0) && (score == 0 <==> owned > 0)
    ensures cap.Some? && cap.value > 0 ==>
      && (score == 20 <==> 2 * owned <= cap.value)
      && (score == 15 <==> cap.value < 2 * owned && 4 * owned <= 3 * cap.value)
      && (score == 10 <==> 4 * owned > 3 * cap.value)
  {
    if cap.None? then 20
    else if owned == 0 && cap.value == 0 then 20
    else if owned > 0 && cap.value == 0 then 0
    else if RatioAtMost(owned, cap.value, 5, 10) then 20
    else if RatioAtMost(owned, cap.value, 75, 100) then 15
    else 10
  }

  predicate Known(s: Option<string>) {
    s.Some? && |s.value| > 0
  }

  /** Location axis: 15 when either side is missing or empty, 30 on a preference match, 5 otherwise. */
  function LocationScore(preferences: Option<string>, location: Option<string>): (score: int)
    ensures score == 15 <==> !Known(preferences) || !Known(location)
    ensures score == 30 <==> Known(preferences) && Known(location) && PreferenceMatches(preferences.value, location.value)
    ensures score == 5 <==> Known(preferences) && Known(location) && !PreferenceMatches(preferences.value, location.value)
  {
    if !Known(preferences) then 15
    else if !Known(location) then 15
    else if PreferenceMatches(preferences.value, location.value) then 30
    else 5
  }

  /** The reason bands: 90 and up, 75 and up, 60 and up, below 60. */
  function ReasonTier(overallScore: int): (tier: nat)
    ensures tier <= 3
    ensures tier == 3 <==> overallScore >= 90
    ensures tier >= 2 <==> overallScore >= 75
    ensures tier >= 1 <==> overallScore >= 60
  {
    if overallScore >= 90 then 3
    else if overallScore >= 75 then 2
    else if overallScore >= 60 then 1
    else 0
  }

  const REASONS: seq<string> := [
    "자격은 있으나 조건이 다소 맞지 않습니다",
    "조건부 적합입니다",
    "적합한 청약입니다",
    "매우 적합한 청약입니다"]

  /** `generateScoreReason`. */
  function ScoreReason(isEligible: bool, overallScore: int): (reason: string)
    ensures !isEligible ==> reason == "자격 조건을 충족하지 못합니다"
    ensures isEligible && overallScore >= 90 ==> reason == "매우 적합한 청약입니다"
    ensures isEligible && 75 <= overallScore < 90 ==> reason == "적합한 청약입니다"
    ensures isEligible && 60 <= overallScore < 75 ==> reason == "조건부 적합입니다"
    ensures isEligible && overallScore < 60 ==> reason == "자격은 있으나 조건이 다소 맞지 않습니다"
  {
    if !isEligible then "자격 조건을 충족하지 못합니다" else REASONS[ReasonTier(overallScore)]
  }

  /** A higher score never falls in a lower reason band. */
  lemma ReasonTierMonotone(a: int, b: int)
    requires a <= b
    ensures ReasonTier(a) <= ReasonTier(b)
  {
  }

  /** `calculateDetailedScore`. */
  function DetailedScore(p: Profile, s: Subscription): (r: MatchScoreResult)
    ensures r.subscriptionId == s.id && r.subscriptionName == s.listing.name
    ensures r.isEligible == IsEligible(p, s)
    ensures !r.isEligible ==>
      && r.overallScore == 0 && r.reason == INELIGIBLE_REASON
      && r.ageScore == 0 && r.incomeScore == 0 && r.householdScore == 0
      && r.housingOwnedScore == 0 && r.locationScore == 0
    ensures r.isEligible ==>
      && r.overallScore == r.ageScore + r.incomeScore + r.householdScore + r.housingOwnedScore + r.locationScore
      && 0 <= r.ageScore <= AGE_MAX && 0 <= r.incomeScore <= INCOME_MAX
      && 0 <= r.householdScore <= HOUSEHOLD_MAX && 0 <= r.housingOwnedScore <= HOUSING_MAX
      && 0 <= r.locationScore <= LOCATION_MAX
      && r.reason == ScoreReason(true, r.overallScore)
    ensures r.isEligible ==>
      && r.ageScore == AgeScore(p.age, s.criteria.minAge, s.criteria.maxAge)
      && r.incomeScore == IncomeScore(p.annualIncome, s.criteria.minIncome, s.criteria.maxIncome)
      && r.householdScore == HouseholdScore(p.householdMembers, s.criteria.minHouseholdMembers, s.criteria.maxHouseholdMembers)
      && r.housingOwnedScore == HousingOwnedScore(p.housingOwned, s.criteria.maxHousingOwned)
      && r.locationScore == LocationScore(p.locationPreferences, s.listing.location)
    ensures 0 <= r.overallScore <= 100
  {
    if !IsEligible(p, s) then
      MatchScoreResult(s.id, s.listing.name, false, 0, 0, 0, 0, 0, 0, INELIGIBLE_REASON)
    else
      var c := s.criteria;
      var age := AgeScore(p.age, c.minAge, c.maxAge);
      var income := IncomeScore(p.annualIncome, c.minIncome, c.maxIncome);
      var household := HouseholdScore(p.householdMembers, c.minHouseholdMembers, c.maxHouseholdMembers);
      var housing := HousingOwnedScore(p.housingOwned, c.maxHousingOwned);
      var location := LocationScore(p.locationPreferences, s.listing.location);
      var penalties := (AGE_MAX - age) + (INCOME_MAX - income) + (HOUSEHOLD_MAX - household)
                       + (HOUSING_MAX - housing) + (LOCATION_MAX - location);
      var overall := if 100 - penalties < 0 then 0 else 100 - penalties;
      MatchScoreResult(s.id, s.listing.name, true, overall, age, income, household, housing, location,
                       ScoreReason(true, overall))
  }

  /** An eligible user scores at least 48: the owned-housing axis cannot drop to 0 once the cap is met. */
  lemma EligibleScoreFloor(p: Profile, s: Subscription)
    requires IsEligible(p, s)
    ensures DetailedScore(p, s).overallScore >= 48
    ensures DetailedScore(p, s).housingOwnedScore >= 10
  {
  }

  /** Both scorers give 0 exactly for the ineligible. */
  lemma ScorersAgreeOnZero(p: Profile, s: Subscription)
    ensures DetailedScore(p, s).overallScore == 0 <==> MatchScore(p, s) == 0
  {
    if IsEligible(p, s) {
      EligibleScoreFloor(p, s);
    }
  }

  /**
   * The two scorers are different scales: an offer with no criteria and a user
   * with no preferences gets 100 from the penalty score but 85 here, because a
   * missing preference earns only half the location axis.
   */
  lemma ScorersDivergeWithoutPreferences(p: Profile, s: Subscription)
    requires s.criteria == Criteria(None, None, None, None, None, None, None)
    requires p.locationPreferences.None?
    ensures MatchScore(p, s) == 100
    ensures DetailedScore(p, s).overallScore == 85
  {
  }
}
