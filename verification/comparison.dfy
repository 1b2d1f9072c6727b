/** The side-by-side comparison summary of several offers. */
module Comparison {
  import opened Wrappers

  /**
   * One compared offer as the summary reads it: name and price range (NOT NULL
   * columns of a stored offer) and the match score of its eligibility
   * details, `None` when it has none.
   */
  datatype ComparedOffer = ComparedOffer(name: string, minPrice: int, maxPrice: int, matchScore: Option<int>)

  datatype ComparisonSummary = ComparisonSummary(
    lowestMinPrice: Option<int>,
    highestMaxPrice: Option<int>,
    highestMatchScore: Option<int>,
    lowestMatchScore: Option<int>,
    bestMatch: Option<string>)

  datatype ComparisonResponse = ComparisonResponse(
    subscriptions: seq<ComparedOffer>,
    totalCount: nat,
    summary: ComparisonSummary)

  /** The score the high/low columns use: an offer without details counts as 0. */
  function ScoreOrZero(o: ComparedOffer): int {
    o.matchScore.GetOr(0)
  }

  function Smallest(xs: seq<int>): (m: int)
    requires |xs| > 0
    ensures m in xs && forall k :: 0 <= k < |xs| ==> m <= xs[k]
  {
    if |xs| == 1 then xs[0]
    else
      var rest := Smallest(xs[..|xs| - 1]);
      assert forall k :: 0 <= k < |xs| - 1 ==> xs[..|xs| - 1][k] == xs[k];
      if xs[|xs| - 1] < rest then xs[|xs| - 1] else rest
  }

  function Largest(xs: seq<int>): (m: int)
    requires |xs| > 0
    ensures m in xs && forall k :: 0 <= k < |xs| ==> xs[k] <= m
  {
    if |xs| == 1 then xs[0]
    else
      var rest := Largest(xs[..|xs| - 1]);
      assert forall k :: 0 <= k < |xs| - 1 ==> xs[..|xs| - 1][k] == xs[k];
      if xs[|xs| - 1] > rest then xs[|xs| - 1] else rest
  }

  function MinPrices(offers: seq<ComparedOffer>): (r: seq<int>)
    ensures |r| == |offers| && forall k :: 0 <= k < |offers| ==> r[k] == offers[k].minPrice
  {
    seq(|offers|, k requires 0 <= k < |offers| => offers[k].minPrice)
  }

  function MaxPrices(offers: seq<ComparedOffer>): (r: seq<int>)
    ensures |r| == |offers| && forall k :: 0 <= k < |offers| ==> r[k] == offers[k].maxPrice
  {
    seq(|offers|, k requires 0 <= k < |offers| => offers[k].maxPrice)
  }

  function Scores(offers: seq<ComparedOffer>): (r: seq<int>)
    ensures |r| == |offers| && forall k :: 0 <= k < |offers| ==> r[k] == ScoreOrZero(offers[k])
  {
    seq(|offers|, k requires 0 <= k < |offers| => ScoreOrZero(offers[k]))
  }

  /**
   * The position of the best match: among offers with details, the first
   * with the highest score (the stream's `max` keeps the earlier of two equal
   * elements).
   */
  function BestIndex(offers: seq<ComparedOffer>): (r: Option<nat>)
    ensures r.None? <==> forall k :: 0 <= k < |offers| ==> offers[k].matchScore.None?
    ensures r.Some? ==>
      && r.value < |offers| && offers[r.value].matchScore.Some?
      && (forall k :: 0 <= k < |offers| && offers[k].matchScore.Some? ==>
            offers[k].matchScore.value <= offers[r.value].matchScore.value)
      && (forall k :: 0 <= k < r.value && offers[k].matchScore.Some? ==>
            offers[k].matchScore.value < offers[r.value].matchScore.value)
  {
    if |offers| == 0 then None
    else
      var init := offers[..|offers| - 1];
      var last := offers[|offers| - 1];
      var best := BestIndex(init);
      assert forall k :: 0 <= k < |init| ==> init[k] == offers[k];
      if last.matchScore.Some? && (best.None? || offers[best.value].matchScore.value < last.matchScore.value)
      then Some(|offers| - 1)
      else best
  }

  /** `buildSummary`: every field absent for an empty list. */
  function BuildSummary(offers: seq<ComparedOffer>): (s: ComparisonSummary)
    ensures |offers| == 0 ==> s == ComparisonSummary(None, None, None, None, None)
    ensures |offers| > 0 ==>
      && s.lowestMinPrice.Some? && s.highestMaxPrice.Some?
      && s.highestMatchScore.Some? && s.lowestMatchScore.Some?
      && (exists k :: 0 <= k < |offers| && offers[k].minPrice == s.lowestMinPrice.value)
      && (forall k :: 0 <= k < |offers| ==> s.lowestMinPrice.value <= offers[k].minPrice)
      && (exists k :: 0 <= k < |offers| && offers[k].maxPrice == s.highestMaxPrice.value)
      && (forall k :: 0 <= k < |offers| ==> offers[k].maxPrice <= s.highestMaxPrice.value)
      && (forall k :: 0 <= k < |offers| ==>
            s.lowestMatchScore.value <= ScoreOrZero(offers[k]) <= s.highestMatchScore.value)
      && (exists k :: 0 <= k < |offers| && ScoreOrZero(offers[k]) == s.highestMatchScore.value)
      && (exists k :: 0 <= k < |offers| && ScoreOrZero(offers[k]) == s.lowestMatchScore.value)
    ensures s.bestMatch.Some? <==> exists k :: 0 <= k < |offers| && offers[k].matchScore.Some?
    ensures s.bestMatch.Some? ==> s.bestMatch == Some(offers[BestIndex(offers).value].name)
  {
    if |offers| == 0 then ComparisonSummary(None, None, None, None, None)
    else
      var best := BestIndex(offers);
      var lowMin := Smallest(MinPrices(offers));
      var highMax := Largest(MaxPrices(offers));
      var high := Largest(Scores(offers));
      var low := Smallest(Scores(offers));
      assert exists k :: 0 <= k < |offers| && MinPrices(offers)[k] == lowMin;
      assert exists k :: 0 <= k < |offers| && MaxPrices(offers)[k] == highMax;
      assert exists k :: 0 <= k < |offers| && Scores(offers)[k] == high;
      assert exists k :: 0 <= k < |offers| && Scores(offers)[k] == low;
      ComparisonSummary(Some(lowMin), Some(highMax), Some(high), Some(low),
                        if best.Some? then Some(offers[best.value].name) else None)
  }

  /** `ComparisonResponse.of`: the list as given, its size, and its summary. */
  function Of(offers: seq<ComparedOffer>): (r: ComparisonResponse)
    ensures r.subscriptions == offers && r.totalCount == |offers|
    ensures r.summary == BuildSummary(offers)
  {
    ComparisonResponse(offers, |offers|, BuildSummary(offers))
  }

  /**
   * With scores in 0..100, the best match carries the highest score, even
   * though offers without details enter the high/low columns as 0 and are
   * left out of the best match.
   */
  lemma BestMatchHasHighestScore(offers: seq<ComparedOffer>)
    requires forall k :: 0 <= k < |offers| && offers[k].matchScore.Some? ==> 0 <= offers[k].matchScore.value <= 100
    requires BuildSummary(offers).bestMatch.Some?
    ensures offers[BestIndex(offers).value].matchScore == BuildSummary(offers).highestMatchScore
  {
    var s := BuildSummary(offers);
    var i := BestIndex(offers).value;
    var high := s.highestMatchScore.value;
    assert ScoreOrZero(offers[i]) <= high;
    var k :| 0 <= k < |offers| && ScoreOrZero(offers[k]) == high;
    assert high <= offers[i].matchScore.value by {
      if offers[k].matchScore.Some? {
        assert offers[k].matchScore.value <= offers[i].matchScore.value;
      }
    }
    assert offers[i].matchScore.value == high;
    assert s.highestMatchScore == Some(high);
  }

  /** Without any details, there is no best match while both score columns read 0. */
  lemma NoDetailsNoBestMatch(offers: seq<ComparedOffer>)
    requires |offers| > 0 && forall k :: 0 <= k < |offers| ==> offers[k].matchScore.None?
    ensures BuildSummary(offers).bestMatch.None?
    ensures BuildSummary(offers).highestMatchScore == Some(0) && BuildSummary(offers).lowestMatchScore == Some(0)
  {
    var s := BuildSummary(offers);
    var k :| 0 <= k < |offers| && ScoreOrZero(offers[k]) == s.highestMatchScore.value;
    var j :| 0 <= j < |offers| && ScoreOrZero(offers[j]) == s.lowestMatchScore.value;
  }
}
