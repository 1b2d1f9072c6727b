/** Offer reads: active offers, and recommendations ranked by match score. */
module SubscriptionQueries {
  import opened Wrappers
  import opened Subscriptions
  import opened Eligibility

  /** `a` is `b` with some elements left out, the rest kept in order. */
  ghost predicate SubsequenceOf<T>(a: seq<T>, b: seq<T>)
    decreases |b|
  {
    if |a| == 0 then true
    else if |b| == 0 then false
    else (a[|a| - 1] == b[|b| - 1] && SubsequenceOf(a[..|a| - 1], b[..|b| - 1])) || SubsequenceOf(a, b[..|b| - 1])
  }

  /** `findByIsActiveTrue` (with a source, `findByIsActiveTrueAndDataSource`), in table order. */
  function Candidates(offers: seq<Subscription>, source: Option<DataSource>): (r: seq<Subscription>)
    ensures forall k :: 0 <= k < |r| ==> r[k].isActive && (source.Some? ==> r[k].provenance.dataSource == source.value)
    ensures multiset(r) <= multiset(offers) && SubsequenceOf(r, offers)
    ensures forall k :: (0 <= k < |offers| && offers[k].isActive
                         && (source.None? || offers[k].provenance.dataSource == source.value)) ==> offers[k] in r
  {
    if |offers| == 0 then []
    else
      var rest := Candidates(offers[..|offers| - 1], source);
      var last := offers[|offers| - 1];
      assert offers == offers[..|offers| - 1] + [last];
      if last.isActive && (source.None? || last.provenance.dataSource == source.value) then
        assert (rest + [last])[..|rest|] == rest;
        rest + [last]
      else rest
  }

  /** The offers the profile is eligible for, in their original order. */
  function EligibleOnly(p: Profile, offers: seq<Subscription>): (r: seq<Subscription>)
    ensures forall k :: 0 <= k < |r| ==> IsEligible(p, r[k])
    ensures multiset(r) <= multiset(offers) && SubsequenceOf(r, offers)
    ensures forall k :: 0 <= k < |offers| && IsEligible(p, offers[k]) ==> offers[k] in r
    ensures forall s :: s in offers && IsEligible(p, s) ==> multiset(r)[s] == multiset(offers)[s]
  {
    if |offers| == 0 then []
    else
      var rest := EligibleOnly(p, offers[..|offers| - 1]);
      var last := offers[|offers| - 1];
      assert offers == offers[..|offers| - 1] + [last];
      if IsEligible(p, last) then
        assert (rest + [last])[..|rest|] == rest;
        rest + [last]
      else rest
  }

  /** Non-increasing by key. */
  ghost predicate SortedDesc<T>(s: seq<T>, key: T -> int) {
    forall i, j :: 0 <= i < j < |s| ==> key(s[i]) >= key(s[j])
  }

  /** The elements of `s` with key `k`, in order: what a stable sort must keep. */
  function WithKey<T>(s: seq<T>, key: T -> int, k: int): seq<T> {
    if |s| == 0 then []
    else WithKey(s[..|s| - 1], key, k) + (if key(s[|s| - 1]) == k then [s[|s| - 1]] else [])
  }

  lemma {:induction false} WithKeyAppend<T>(a: seq<T>, b: seq<T>, key: T -> int, k: int)
    ensures WithKey(a + b, key, k) == WithKey(a, key, k) + WithKey(b, key, k)
    decreases |b|
  {
    if |b| == 0 {
      assert a + b == a;
    } else {
      assert (a + b)[..|a + b| - 1] == a + b[..|b| - 1];
      WithKeyAppend(a, b[..|b| - 1], key, k);
    }
  }

  /** Nothing in `s` has key `k` when every key is below it. */
  lemma {:induction false} WithKeyNone<T>(s: seq<T>, key: T -> int, k: int)
    requires forall i :: 0 <= i < |s| ==> key(s[i]) < k
    ensures WithKey(s, key, k) == []
  {
    if |s| > 0 {
      WithKeyNone(s[..|s| - 1], key, k);
    }
  }

  /** Insert `x` into a non-increasing sequence after every element whose key is at least its own. */
  function InsertDesc<T>(x: T, s: seq<T>, key: T -> int): (r: seq<T>)
    ensures multiset(r) == multiset(s) + multiset{x}
    ensures |r| == |s| + 1
  {
    if |s| == 0 then [x]
    else if key(s[0]) >= key(x) then
      assert s == [s[0]] + s[1..];
      [s[0]] + InsertDesc(x, s[1..], key)
    else [x] + s
  }

  lemma {:induction false} InsertDescSorted<T>(x: T, s: seq<T>, key: T -> int)
    requires SortedDesc(s, key)
    ensures SortedDesc(InsertDesc(x, s, key), key)
    ensures InsertDesc(x, s, key)[0] == x || (|s| > 0 && InsertDesc(x, s, key)[0] == s[0])
  {
    if |s| > 0 && key(s[0]) >= key(x) {
      InsertDescSorted(x, s[1..], key);
      var tail := InsertDesc(x, s[1..], key);
      assert key(s[0]) >= key(tail[0]);
      assert InsertDesc(x, s, key) == [s[0]] + tail;
    }
  }

  /** Inserting keeps every key group in order, with `x` last in its group. */
  lemma {:induction false} InsertDescStable<T>(x: T, s: seq<T>, key: T -> int, k: int)
    requires SortedDesc(s, key)
    ensures WithKey(InsertDesc(x, s, key), key, k) == WithKey(s, key, k) + (if key(x) == k then [x] else [])
  {
    if |s| == 0 {
      assert WithKey([x], key, k) == WithKey([], key, k) + (if key(x) == k then [x] else []);
    } else if key(s[0]) >= key(x) {
      SortedTail(s, key);
      InsertDescStable(x, s[1..], key, k);
      InsertBehind(x, s, key, k);
    } else {
      InsertInFront(x, s, key, k);
    }
  }

  lemma SortedTail<T>(s: seq<T>, key: T -> int)
    requires SortedDesc(s, key) && |s| > 0
    ensures SortedDesc(s[1..], key)
  {
    forall i, j | 0 <= i < j < |s| - 1
      ensures key(s[1..][i]) >= key(s[1..][j])
    {
      assert s[1..][i] == s[i + 1] && s[1..][j] == s[j + 1];
    }
  }

  /** Inserting behind the first element: that element's group membership is unchanged. */
  lemma InsertBehind<T>(x: T, s: seq<T>, key: T -> int, k: int)
    requires |s| > 0 && key(s[0]) >= key(x)
    requires WithKey(InsertDesc(x, s[1..], key), key, k) == WithKey(s[1..], key, k) + (if key(x) == k then [x] else [])
    ensures WithKey(InsertDesc(x, s, key), key, k) == WithKey(s, key, k) + (if key(x) == k then [x] else [])
  {
    var t := InsertDesc(x, s[1..], key);
    assert InsertDesc(x, s, key) == [s[0]] + t;
    WithKeyAppend([s[0]], t, key, k);
    WithKeyAppend([s[0]], s[1..], key, k);
    assert [s[0]] + s[1..] == s;
  }

  /** Inserting ahead of everything: `x` outranks every key, so its group had no member before. */
  lemma InsertInFront<T>(x: T, s: seq<T>, key: T -> int, k: int)
    requires SortedDesc(s, key) && |s| > 0 && key(s[0]) < key(x)
    ensures WithKey([x] + s, key, k) == WithKey(s, key, k) + (if key(x) == k then [x] else [])
  {
    WithKeyAppend([x], s, key, k);
    assert WithKey([x], key, k) == WithKey([], key, k) + (if key(x) == k then [x] else []);
    if key(x) == k {
      WithKeyNone(s, key, k);
    }
  }

  /** A stable sort by non-increasing key (what `List.sort` does with the reversed score comparator). */
  function SortDesc<T>(s: seq<T>, key: T -> int): (r: seq<T>)
    ensures multiset(r) == multiset(s)
    ensures |r| == |s|
  {
    if |s| == 0 then []
    else
      assert s == s[..|s| - 1] + [s[|s| - 1]];
      InsertDesc(s[|s| - 1], SortDesc(s[..|s| - 1], key), key)
  }

  lemma {:induction false} SortDescSorted<T>(s: seq<T>, key: T -> int)
    ensures SortedDesc(SortDesc(s, key), key)
  {
    if |s| > 0 {
      SortDescSorted(s[..|s| - 1], key);
      InsertDescSorted(s[|s| - 1], SortDesc(s[..|s| - 1], key), key);
    }
  }

  /** Equal keys keep their original relative order. */
  lemma {:induction false} SortDescStable<T>(s: seq<T>, key: T -> int, k: int)
    ensures WithKey(SortDesc(s, key), key, k) == WithKey(s, key, k)
  {
    if |s| > 0 {
      SortDescStable(s[..|s| - 1], key, k);
      SortDescSorted(s[..|s| - 1], key);
      InsertDescStable(s[|s| - 1], SortDesc(s[..|s| - 1], key), key, k);
    }
  }

  /** `getRecommendations`. */
  function Recommendations(p: Profile, offers: seq<Subscription>, source: Option<DataSource>): (r: seq<Subscription>)
    ensures forall k :: 0 <= k < |r| ==>
      && r[k].isActive && IsEligible(p, r[k])
      && (source.Some? ==> r[k].provenance.dataSource == source.value)
    ensures multiset(r) == multiset(EligibleOnly(p, Candidates(offers, source)))
  {
    var eligible := EligibleOnly(p, Candidates(offers, source));
    var r := SortDesc(eligible, s => MatchScore(p, s));
    FilteredQualify(p, offers, source);
    SameElements(r, eligible);
    r
  }

  lemma SameElements<T>(a: seq<T>, b: seq<T>)
    requires multiset(a) == multiset(b)
    ensures forall k :: 0 <= k < |a| ==> a[k] in b
  {
    forall k | 0 <= k < |a|
      ensures a[k] in b
    {
      assert a[k] in multiset(a);
    }
  }

  /** Whatever survives both filters is active, of the chosen source and eligible. */
  lemma FilteredQualify(p: Profile, offers: seq<Subscription>, source: Option<DataSource>)
    ensures forall x :: x in EligibleOnly(p, Candidates(offers, source)) ==>
      && x.isActive && IsEligible(p, x)
      && (source.Some? ==> x.provenance.dataSource == source.value)
  {
    var c := Candidates(offers, source);
    var e := EligibleOnly(p, c);
    forall x | x in e
      ensures x.isActive && IsEligible(p, x) && (source.Some? ==> x.provenance.dataSource == source.value)
    {
      var i :| 0 <= i < |e| && e[i] == x;
      assert x in multiset(c);
      var j :| 0 <= j < |c| && c[j] == x;
    }
  }

  /** Recommendations come best first, and offers with equal scores keep their table order. */
  lemma RecommendationsRanked(p: Profile, offers: seq<Subscription>, source: Option<DataSource>, score: int)
    ensures var r := Recommendations(p, offers, source);
      && (forall i, j :: 0 <= i < j < |r| ==> MatchScore(p, r[i]) >= MatchScore(p, r[j]))
      && WithKey(r, s => MatchScore(p, s), score)
         == WithKey(EligibleOnly(p, Candidates(offers, source)), s => MatchScore(p, s), score)
  {
    var key := s => MatchScore(p, s);
    SortDescSorted(EligibleOnly(p, Candidates(offers, source)), key);
    SortDescStable(EligibleOnly(p, Candidates(offers, source)), key, score);
  }

  /** Every active eligible offer of the chosen source is recommended. */
  lemma RecommendationsComplete(p: Profile, offers: seq<Subscription>, source: Option<DataSource>, k: nat)
    requires k < |offers| && offers[k].isActive && IsEligible(p, offers[k])
    requires source.None? || offers[k].provenance.dataSource == source.value
    ensures offers[k] in Recommendations(p, offers, source)
  {
    var c := Candidates(offers, source);
    var e := EligibleOnly(p, c);
    assert offers[k] in c;
    assert offers[k] in e;
    assert offers[k] in multiset(Recommendations(p, offers, source));
  }
}
