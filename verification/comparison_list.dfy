/**
 * The browser-side comparison list: up to four offer ids kept under one
 * local-storage key.
 */
module ComparisonList {

  const MAX_COMPARISON_ITEMS: nat := 4

  /**
   * What the storage key holds: nothing, text that does not parse, or a
   * parsed list of ids. An empty stored string reads like a missing key.
   */
  datatype Stored = Missing | Corrupt | Items(ids: seq<string>)

  /** `getComparisonItems`: the stored list, or the empty list when there is none or it does not parse. */
  function GetComparisonItems(st: Stored): (items: seq<string>)
    ensures st.Items? ==> items == st.ids
    ensures !st.Items? ==> items == []
  {
    if st.Items? then st.ids else []
  }

  /** The first four entries, as `slice(0, 4)` takes them. */
  function Take(items: seq<string>): (r: seq<string>)
    ensures |r| <= MAX_COMPARISON_ITEMS && r <= items
    ensures |items| <= MAX_COMPARISON_ITEMS ==> r == items
    ensures |items| > MAX_COMPARISON_ITEMS ==> r == items[..MAX_COMPARISON_ITEMS]
  {
    if |items| <= MAX_COMPARISON_ITEMS then items else items[..MAX_COMPARISON_ITEMS]
  }

  /** `setComparisonItems`: store at most the first four ids. */
  function SetComparisonItems(items: seq<string>): (st: Stored)
    ensures st.Items? && |st.ids| <= MAX_COMPARISON_ITEMS && st.ids <= items
    ensures |items| <= MAX_COMPARISON_ITEMS ==> GetComparisonItems(st) == items
    ensures |items| > MAX_COMPARISON_ITEMS ==> GetComparisonItems(st) == items[..MAX_COMPARISON_ITEMS]
  {
    Items(Take(items))
  }

  /** No id is listed twice. */
  predicate Distinct(items: seq<string>) {
    forall a, b :: 0 <= a < b < |items| ==> items[a] != items[b]
  }

  /** The state the list functions keep: at most four ids, none twice. */
  predicate WellFormed(st: Stored) {
    st.Items? ==> |st.ids| <= MAX_COMPARISON_ITEMS && Distinct(st.ids)
  }

  /**
   * `addToComparison`: refused, with nothing written, once four ids are
   * listed; an id already listed is accepted and nothing is written;
   * otherwise the id is appended.
   */
  function AddToComparison(st: Stored, id: string): (r: (Stored, bool))
    ensures r.1 <==> |GetComparisonItems(st)| < MAX_COMPARISON_ITEMS
    ensures !r.1 ==> r.0 == st
    ensures r.1 && id in GetComparisonItems(st) ==> r.0 == st
    ensures r.1 && id !in GetComparisonItems(st) ==> GetComparisonItems(r.0) == GetComparisonItems(st) + [id]
    ensures r.1 ==> id in GetComparisonItems(r.0)
    ensures WellFormed(st) ==> WellFormed(r.0)
  {
    var items := GetComparisonItems(st);
    if |items| >= MAX_COMPARISON_ITEMS then (st, false)
    else if id in items then (st, true)
    else
      var added := items + [id];
      assert forall a :: 0 <= a < |items| ==> added[a] == items[a];
      (SetComparisonItems(added), true)
  }

  /** The list with every occurrence of `id` filtered out, the rest in order. */
  function Without(items: seq<string>, id: string): (r: seq<string>)
    ensures |r| <= |items|
    ensures forall x :: x in r <==> x in items && x != id
    ensures id !in items ==> r == items
  {
    if |items| == 0 then []
    else
      var rest := Without(items[..|items| - 1], id);
      assert items == items[..|items| - 1] + [items[|items| - 1]];
      if items[|items| - 1] == id then rest else rest + [items[|items| - 1]]
  }

  /** Filtering distributes over concatenation. */
  lemma {:induction false} WithoutAppend(a: seq<string>, b: seq<string>, id: string)
    ensures Without(a + b, id) == Without(a, id) + Without(b, id)
  {
    if |b| > 0 {
      var init := b[..|b| - 1];
      WithoutAppend(a, init, id);
      assert (a + b)[..|a + b| - 1] == a + init;
      assert b[..|b| - 1] == init;
    } else {
      assert a + b == a;
    }
  }

  /** Filtering keeps a list free of repetitions. */
  lemma {:induction false} WithoutDistinct(items: seq<string>, id: string)
    requires Distinct(items)
    ensures Distinct(Without(items, id))
  {
    if |items| > 0 {
      var init := items[..|items| - 1];
      var last := items[|items| - 1];
      assert Distinct(init) by {
        forall a, b | 0 <= a < b < |init|
          ensures init[a] != init[b]
        {
          assert init[a] == items[a] && init[b] == items[b];
        }
      }
      WithoutDistinct(init, id);
      var rest := Without(init, id);
      if last != id {
        assert last !in init;
        assert last !in rest;
        var r := rest + [last];
        forall a, b | 0 <= a < b < |r|
          ensures r[a] != r[b]
        {
          if b == |rest| {
            assert r[a] in rest;
          } else {
            assert r[a] == rest[a] && r[b] == rest[b];
          }
        }
      }
    }
  }

  lemma WithoutKeepsDistinct(items: seq<string>, id: string)
    ensures Distinct(items) ==> Distinct(Without(items, id))
  {
    if Distinct(items) {
      WithoutDistinct(items, id);
    }
  }

  /** `removeFromComparison`: write back the list without `id`, cut to four. */
  function RemoveFromComparison(st: Stored, id: string): (r: Stored)
    ensures r.Items? && id !in GetComparisonItems(r)
    ensures |GetComparisonItems(st)| <= MAX_COMPARISON_ITEMS ==>
      GetComparisonItems(r) == Without(GetComparisonItems(st), id)
    ensures WellFormed(st) ==> WellFormed(r)
  {
    var items := GetComparisonItems(st);
    WithoutKeepsDistinct(items, id);
    SetComparisonItems(Without(items, id))
  }

  /** `clearComparison`: the key is removed. */
  function ClearComparison(): (r: Stored)
    ensures GetComparisonItems(r) == [] && WellFormed(r)
  {
    Missing
  }

  /** `isInComparison`. */
  predicate IsInComparison(st: Stored, id: string) {
    id in GetComparisonItems(st)
  }

  /** Removing an id leaves every other listed id listed, in a well-formed list. */
  lemma RemoveKeepsOthers(st: Stored, id: string, other: string)
    requires WellFormed(st) && other != id
    ensures !IsInComparison(RemoveFromComparison(st, id), id)
    ensures IsInComparison(RemoveFromComparison(st, id), other) <==> IsInComparison(st, other)
  {
  }

  /** Adding an id that was not listed and then removing it restores the list. */
  lemma {:induction false} AddThenRemove(st: Stored, id: string)
    requires !IsInComparison(st, id) && |GetComparisonItems(st)| < MAX_COMPARISON_ITEMS
    ensures GetComparisonItems(RemoveFromComparison(AddToComparison(st, id).0, id)) == GetComparisonItems(st)
  {
    var items := GetComparisonItems(st);
    WithoutAppend(items, [id], id);
    assert Without([id], id) == [] by {
      assert [id][..0] == [];
    }
    assert items + [] == items;
  }

  /**
   * Adding an id twice: the second add writes nothing; it is accepted while
   * the list has room, and refused once the first add filled it, although the
   * id is then listed.
   */
  lemma SecondAdd(st: Stored, id: string)
    requires AddToComparison(st, id).1
    ensures var st' := AddToComparison(st, id).0;
      && IsInComparison(st', id)
      && (|GetComparisonItems(st')| < MAX_COMPARISON_ITEMS ==> AddToComparison(st', id) == (st', true))
      && (|GetComparisonItems(st')| >= MAX_COMPARISON_ITEMS ==> AddToComparison(st', id) == (st', false))
  {
  }

  /** One call a page makes on the list. */
  datatype Action = Add(id: string) | Remove(id: string) | Clear

  function Apply(st: Stored, action: Action): Stored {
    match action
    case Add(id) => AddToComparison(st, id).0
    case Remove(id) => RemoveFromComparison(st, id)
    case Clear => ClearComparison()
  }

  function Replay(st: Stored, actions: seq<Action>): Stored
    decreases |actions|
  {
    if |actions| == 0 then st else Replay(Apply(st, actions[0]), actions[1..])
  }

  /** From a well-formed list (an empty key, say), any run of adds, removes and clears keeps at most four distinct ids. */
  lemma {:induction false} ReplayWellFormed(st: Stored, actions: seq<Action>)
    requires WellFormed(st)
    ensures WellFormed(Replay(st, actions))
    ensures |GetComparisonItems(Replay(st, actions))| <= MAX_COMPARISON_ITEMS
    decreases |actions|
  {
    if |actions| > 0 {
      ReplayWellFormed(Apply(st, actions[0]), actions[1..]);
    }
  }
}
