/** The web client's presentation of an eligibility result: requirement groups and score bands. */
module EligibilityView {

  datatype RequirementCategory = INCOME | ASSET | HOUSING | REGION | AGE | HOUSEHOLD | SUBSCRIPTION | SPECIAL

  function CategoryLabel(c: RequirementCategory): string {
    match c
    case INCOME => "소득 요건"
    case ASSET => "자산 요건"
    case HOUSING => "주택 소유"
    case REGION => "지역 요건"
    case AGE => "연령 요건"
    case HOUSEHOLD => "가구 구성"
    case SUBSCRIPTION => "청약통장"
    case SPECIAL => "특별공급"
  }

  /** The display order of the groups, most important first. */
  const CATEGORY_ORDER: seq<RequirementCategory> := [INCOME, HOUSING, SUBSCRIPTION, REGION, AGE, HOUSEHOLD, ASSET, SPECIAL]

  /** A category's place in the display order. */
  function Rank(c: RequirementCategory): (r: nat)
    ensures r < |CATEGORY_ORDER| && CATEGORY_ORDER[r] == c
  {
    match c
    case INCOME => 0
    case HOUSING => 1
    case SUBSCRIPTION => 2
    case REGION => 3
    case AGE => 4
    case HOUSEHOLD => 5
    case ASSET => 6
    case SPECIAL => 7
  }

  /** A requirement as the grouping reads it. */
  datatype Requirement = Requirement(id: string, category: RequirementCategory, isMet: bool)

  datatype RequirementGroup = RequirementGroup(
    category: RequirementCategory,
    categoryLabel: string,
    requirements: seq<Requirement>,
    metCount: nat,
    totalCount: nat,
    score: int)

  /** The requirements of one category, in their original order. */
  function InCategory(reqs: seq<Requirement>, c: RequirementCategory): (r: seq<Requirement>)
    ensures |r| <= |reqs|
    ensures forall k :: 0 <= k < |r| ==> r[k].category == c
    ensures forall k :: 0 <= k < |reqs| && reqs[k].category == c ==> reqs[k] in r
  {
    if |reqs| == 0 then []
    else
      var init := InCategory(reqs[..|reqs| - 1], c);
      assert forall k :: 0 <= k < |reqs| - 1 ==> reqs[..|reqs| - 1][k] == reqs[k];
      if reqs[|reqs| - 1].category == c then init + [reqs[|reqs| - 1]] else init
  }

  /** Filtering by category distributes over concatenation, so order and repeats are kept. */
  lemma {:induction false} InCategoryAppend(a: seq<Requirement>, b: seq<Requirement>, c: RequirementCategory)
    ensures InCategory(a + b, c) == InCategory(a, c) + InCategory(b, c)
    decreases |b|
  {
    if |b| == 0 {
      assert a + b == a;
    } else {
      var b' := b[..|b| - 1];
      InCategoryAppend(a, b', c);
      assert (a + b)[..|a + b| - 1] == a + b';
      assert (a + b)[|a + b| - 1] == b[|b| - 1];
    }
  }

  /** A single requirement is kept exactly when it has the category. */
  lemma InCategoryOne(x: Requirement, c: RequirementCategory)
    ensures InCategory([x], c) == if x.category == c then [x] else []
  {
  }

  function MetCount(reqs: seq<Requirement>): (n: nat)
    ensures n <= |reqs|
  {
    if |reqs| == 0 then 0
    else MetCount(reqs[..|reqs| - 1]) + (if reqs[|reqs| - 1].isMet then 1 else 0)
  }

  /**
   * `Math.round(met / total * 100)`, rounding halves up, over exact
   * fractions; 0 for an empty group.
   */
  function RoundedPercent(met: nat, total: nat): (p: int)
    requires met <= total
    ensures 0 <= p <= 100
    ensures total > 0 ==> 200 * met - total < 2 * p * total <= 200 * met + total
    ensures total == 0 ==> p == 0
  {
    if total == 0 then 0
    else
      var p := (200 * met + total) / (2 * total);
      RoundingBounds(met, total, p);
      p
  }

  lemma RoundingBounds(met: nat, total: nat, p: int)
    requires 0 < total && met <= total && p == (200 * met + total) / (2 * total)
    ensures 0 <= p <= 100
    ensures 200 * met - total < 2 * p * total <= 200 * met + total
  {
    var r := (200 * met + total) % (2 * total);
    assert 200 * met + total == 2 * total * p + r && 0 <= r < 2 * total;
    assert 2 * p * total == 2 * total * p;
    assert 2 * total * p < 2 * total * 101;
    CancelStrict(2 * total, p, 101);
    assert 2 * total * (-1) < 2 * total * p;
    CancelStrict(2 * total, -1, p);
  }

  /** A positive factor can be cancelled from a strict inequality. */
  lemma CancelStrict(c: int, a: int, b: int)
    requires c > 0 && c * a < c * b
    ensures a < b
  {
  }

  /** All met scores 100, none met scores 0. */
  lemma RoundedPercentEnds(total: nat)
    requires total > 0
    ensures RoundedPercent(total, total) == 100 && RoundedPercent(0, total) == 0
  {
    var full := RoundedPercent(total, total);
    assert 2 * total * 99 < 2 * full * total < 2 * total * 101;
    assert 2 * full * total == 2 * total * full;
    CancelStrict(2 * total, 99, full);
    CancelStrict(2 * total, full, 101);
    var none := RoundedPercent(0, total);
    assert 2 * total * (-1) < 2 * none * total < 2 * total * 1;
    assert 2 * none * total == 2 * total * none;
    CancelStrict(2 * total, -1, none);
    CancelStrict(2 * total, none, 1);
  }

  function MakeGroup(all: seq<Requirement>, c: RequirementCategory): (g: RequirementGroup)
    ensures g.category == c && g.categoryLabel == CategoryLabel(c)
    ensures g.requirements == InCategory(all, c)
    ensures g.totalCount == |g.requirements| && g.metCount == MetCount(g.requirements)
    ensures g.metCount <= g.totalCount && 0 <= g.score <= 100
    ensures g.score == RoundedPercent(g.metCount, g.totalCount)
  {
    var reqs := InCategory(all, c);
    var met := MetCount(reqs);
    RequirementGroup(c, CategoryLabel(c), reqs, met, |reqs|, RoundedPercent(met, |reqs|))
  }

  /** The categories of `order` that some requirement has, in that order. */
  function PresentCategories(all: seq<Requirement>, order: seq<RequirementCategory>): (cs: seq<RequirementCategory>)
    ensures forall c :: c in cs <==> c in order && |InCategory(all, c)| > 0
  {
    if |order| == 0 then []
    else
      var rest := PresentCategories(all, order[1..]);
      if |InCategory(all, order[0])| > 0 then [order[0]] + rest else rest
  }

  function Groups(all: seq<Requirement>, cs: seq<RequirementCategory>): (gs: seq<RequirementGroup>)
    ensures |gs| == |cs| && forall k :: 0 <= k < |cs| ==> gs[k] == MakeGroup(all, cs[k])
  {
    seq(|cs|, k requires 0 <= k < |cs| => MakeGroup(all, cs[k]))
  }

  function GroupCategories(gs: seq<RequirementGroup>): (cs: seq<RequirementCategory>)
    ensures |cs| == |gs| && forall k :: 0 <= k < |gs| ==> cs[k] == gs[k].category
  {
    seq(|gs|, k requires 0 <= k < |gs| => gs[k].category)
  }

  /**
   * `groupRequirementsByCategory`: met then failed requirements, one group
   * per category present. Each category forms a single group and the ranks
   * are distinct, so sorting the groups by rank is walking the fixed order.
   */
  function GroupRequirementsByCategory(met: seq<Requirement>, failed: seq<Requirement>): (gs: seq<RequirementGroup>)
    ensures forall k :: 0 <= k < |gs| ==>
      && gs[k] == MakeGroup(met + failed, gs[k].category)
      && gs[k].metCount <= gs[k].totalCount && 0 <= gs[k].score <= 100 && gs[k].totalCount > 0
    ensures forall r :: r in met + failed ==> r.category in GroupCategories(gs)
    ensures forall a, b :: 0 <= a < b < |gs| ==> Rank(gs[a].category) < Rank(gs[b].category)
  {
    var all := met + failed;
    var gs := Groups(all, PresentCategories(all, CATEGORY_ORDER));
    PresentGroups(all);
    gs
  }

  lemma PresentGroups(all: seq<Requirement>)
    ensures var gs := Groups(all, PresentCategories(all, CATEGORY_ORDER));
      && (forall k :: 0 <= k < |gs| ==> gs[k] == MakeGroup(all, gs[k].category) && gs[k].totalCount > 0)
      && (forall r :: r in all ==> r.category in GroupCategories(gs))
      && (forall a, b :: 0 <= a < b < |gs| ==> Rank(gs[a].category) < Rank(gs[b].category))
  {
    var cs := PresentCategories(all, CATEGORY_ORDER);
    var gs := Groups(all, cs);
    assert GroupCategories(gs) == cs;
    forall r | r in all
      ensures r.category in cs
    {
      CategoryPresent(all, r);
    }
    forall k | 0 <= k < |cs|
      ensures |InCategory(all, cs[k])| > 0
    {
      assert cs[k] in cs;
    }
    OrderSortedByRank();
    PresentSorted(all, CATEGORY_ORDER);
  }

  lemma CategoryPresent(all: seq<Requirement>, r: Requirement)
    requires r in all
    ensures r.category in PresentCategories(all, CATEGORY_ORDER)
  {
    var i :| 0 <= i < |all| && all[i] == r;
    assert r in InCategory(all, r.category);
    assert CATEGORY_ORDER[Rank(r.category)] == r.category;
  }

  /** Keeping only some categories of a rank-sorted order leaves them rank-sorted. */
  lemma {:induction false} PresentSorted(all: seq<Requirement>, order: seq<RequirementCategory>)
    requires forall a, b :: 0 <= a < b < |order| ==> Rank(order[a]) < Rank(order[b])
    ensures forall a, b :: 0 <= a < b < |PresentCategories(all, order)| ==>
      Rank(PresentCategories(all, order)[a]) < Rank(PresentCategories(all, order)[b])
  {
    if |order| > 0 {
      var tail := order[1..];
      forall a, b | 0 <= a < b < |tail|
        ensures Rank(tail[a]) < Rank(tail[b])
      {
        assert tail[a] == order[a + 1] && tail[b] == order[b + 1];
      }
      PresentSorted(all, tail);
      var rest := PresentCategories(all, tail);
      if |InCategory(all, order[0])| > 0 {
        var cs := [order[0]] + rest;
        forall k | 0 <= k < |rest|
          ensures Rank(order[0]) < Rank(rest[k])
        {
          assert rest[k] in tail;
          var j :| 0 <= j < |tail| && tail[j] == rest[k];
          assert tail[j] == order[j + 1];
        }
        assert PresentCategories(all, order) == cs;
        forall a, b | 0 <= a < b < |cs|
          ensures Rank(cs[a]) < Rank(cs[b])
        {
          assert cs[b] == rest[b - 1];
          if a > 0 {
            assert cs[a] == rest[a - 1];
          } else {
            assert cs[a] == order[0];
          }
        }
      } else {
        assert PresentCategories(all, order) == rest;
      }
    }
  }

  /** The display order lists the categories by increasing rank. */
  lemma OrderSortedByRank()
    ensures forall a, b :: 0 <= a < b < |CATEGORY_ORDER| ==> Rank(CATEGORY_ORDER[a]) < Rank(CATEGORY_ORDER[b])
  {
    forall j | 0 <= j < |CATEGORY_ORDER|
      ensures Rank(CATEGORY_ORDER[j]) == j
    {
      assert j == 0 || j == 1 || j == 2 || j == 3 || j == 4 || j == 5 || j == 6 || j == 7;
    }
  }

  /** The number of requirements the groups hold together. */
  function TotalOf(gs: seq<RequirementGroup>): nat {
    if |gs| == 0 then 0 else gs[0].totalCount + TotalOf(gs[1..])
  }

  /** The number of requirements whose category is among `cs`. */
  function CountIn(all: seq<Requirement>, cs: seq<RequirementCategory>): nat {
    if |cs| == 0 then 0 else |InCategory(all, cs[0])| + CountIn(all, cs[1..])
  }

  /** The groups together hold every requirement exactly once. */
  lemma GroupTotalsSum(met: seq<Requirement>, failed: seq<Requirement>)
    ensures TotalOf(GroupRequirementsByCategory(met, failed)) == |met| + |failed|
  {
    var all := met + failed;
    var cs := PresentCategories(all, CATEGORY_ORDER);
    GroupsTotal(all, cs);
    AbsentCountsNothing(all, CATEGORY_ORDER);
    CategoryCountsSum(all);
  }

  lemma {:induction false} GroupsTotal(all: seq<Requirement>, cs: seq<RequirementCategory>)
    ensures TotalOf(Groups(all, cs)) == CountIn(all, cs)
  {
    if |cs| > 0 {
      assert Groups(all, cs)[1..] == Groups(all, cs[1..]);
      GroupsTotal(all, cs[1..]);
    }
  }

  lemma {:induction false} AbsentCountsNothing(all: seq<Requirement>, order: seq<RequirementCategory>)
    ensures CountIn(all, PresentCategories(all, order)) == CountIn(all, order)
  {
    if |order| > 0 {
      AbsentCountsNothing(all, order[1..]);
      var rest := PresentCategories(all, order[1..]);
      if |InCategory(all, order[0])| > 0 {
        assert ([order[0]] + rest)[1..] == rest;
      }
    }
  }

  function Occurrences(order: seq<RequirementCategory>, c: RequirementCategory): nat {
    if |order| == 0 then 0 else (if order[0] == c then 1 else 0) + Occurrences(order[1..], c)
  }

  /** Appending one requirement adds it to the count of each listed occurrence of its category. */
  lemma {:induction false} CountInSnoc(init: seq<Requirement>, r: Requirement, order: seq<RequirementCategory>)
    ensures CountIn(init + [r], order) == CountIn(init, order) + Occurrences(order, r.category)
  {
    if |order| > 0 {
      CountInSnoc(init, r, order[1..]);
      assert (init + [r])[..|init + [r]| - 1] == init;
    }
  }

  lemma {:induction false} OccursOnce(order: seq<RequirementCategory>, c: RequirementCategory)
    requires c in order
    requires forall a, b :: 0 <= a < b < |order| ==> order[a] != order[b]
    ensures Occurrences(order, c) == 1
  {
    if order[0] == c {
      NotOccurring(order[1..], c);
    } else {
      OccursOnce(order[1..], c);
    }
  }

  lemma {:induction false} NotOccurring(order: seq<RequirementCategory>, c: RequirementCategory)
    requires c !in order
    ensures Occurrences(order, c) == 0
  {
    if |order| > 0 {
      NotOccurring(order[1..], c);
    }
  }

  /** Every requirement has exactly one of the eight categories. */
  lemma {:induction false} CategoryCountsSum(all: seq<Requirement>)
    ensures CountIn(all, CATEGORY_ORDER) == |all|
  {
    if |all| == 0 {
      EmptyCountsNothing(CATEGORY_ORDER);
    } else {
      var init := all[..|all| - 1];
      var r := all[|all| - 1];
      CategoryCountsSum(init);
      assert init + [r] == all;
      CountInSnoc(init, r, CATEGORY_ORDER);
      OrderListsEachOnce(r.category);
    }
  }

  lemma OrderListsEachOnce(c: RequirementCategory)
    ensures Occurrences(CATEGORY_ORDER, c) == 1
  {
    assert CATEGORY_ORDER[Rank(c)] == c;
    OccursOnce(CATEGORY_ORDER, c);
  }

  lemma {:induction false} EmptyCountsNothing(cs: seq<RequirementCategory>)
    ensures CountIn([], cs) == 0
  {
    if |cs| > 0 {
      EmptyCountsNothing(cs[1..]);
    }
  }

  datatype Band = Excellent | Good | Fair | Poor | Failing

  /** The five bands, shared by the colour and the label: 90, 70, 50 and 30 and up. */
  function BandOf(score: int): (b: Band)
    ensures b == Excellent <==> score >= 90
    ensures b == Good <==> 70 <= score < 90
    ensures b == Fair <==> 50 <= score < 70
    ensures b == Poor <==> 30 <= score < 50
    ensures b == Failing <==> score < 30
  {
    if score >= 90 then Excellent
    else if score >= 70 then Good
    else if score >= 50 then Fair
    else if score >= 30 then Poor
    else Failing
  }

  function BandIndex(b: Band): nat {
    match b
    case Excellent => 4
    case Good => 3
    case Fair => 2
    case Poor => 1
    case Failing => 0
  }

  /** A higher score never lands in a lower band. */
  lemma BandMonotone(a: int, b: int)
    requires a <= b
    ensures BandIndex(BandOf(a)) <= BandIndex(BandOf(b))
  {
  }

  /** `getMatchScoreColor`. */
  function MatchScoreColor(score: int): (color: string)
    ensures color == "green" <==> score >= 90
    ensures color == "blue" <==> 70 <= score < 90
    ensures color == "yellow" <==> 50 <= score < 70
    ensures color == "orange" <==> 30 <= score < 50
    ensures color == "red" <==> score < 30
  {
    if score >= 90 then "green"
    else if score >= 70 then "blue"
    else if score >= 50 then "yellow"
    else if score >= 30 then "orange"
    else "red"
  }

  /** `getMatchScoreLabel`. */
  function MatchScoreLabel(score: int): (text: string)
    ensures text == "최상" <==> score >= 90
    ensures text == "상" <==> 70 <= score < 90
    ensures text == "중" <==> 50 <= score < 70
    ensures text == "하" <==> 30 <= score < 50
    ensures text == "미달" <==> score < 30
  {
    if score >= 90 then "최상"
    else if score >= 70 then "상"
    else if score >= 50 then "중"
    else if score >= 30 then "하"
    else "미달"
  }

  /** Colour and label follow the same bands: two scores share a colour exactly when they share a label. */
  lemma ColourAndLabelAgree(a: int, b: int)
    ensures MatchScoreColor(a) == MatchScoreColor(b) <==> BandOf(a) == BandOf(b)
    ensures MatchScoreLabel(a) == MatchScoreLabel(b) <==> BandOf(a) == BandOf(b)
  {
  }
}
