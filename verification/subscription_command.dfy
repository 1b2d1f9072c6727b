/** Offer writes: create, merge with an uploaded document, and the expiry sweep. */
module SubscriptionCommands {
  import opened Wrappers
  import opened Subscriptions
  import opened OfferStore

  /** `mergeWithPdfData`: the offer at position `i` becomes MERGED and linked to the document. */
  function MergeWithPdfData(st: Store, i: nat, pdfDocumentId: string): (st': Store)
    requires i < |st.offers|
    ensures |st'.offers| == |st.offers| && st'.nextId == st.nextId
    ensures st'.offers[i].provenance.dataSource == MERGED && st'.offers[i].provenance.isMerged
    ensures st'.offers[i].provenance.pdfDocumentId == Some(pdfDocumentId)
    ensures st'.offers[i].criteria == st.offers[i].criteria && st'.offers[i].listing == st.offers[i].listing
    ensures forall k :: 0 <= k < |st.offers| && k != i ==> st'.offers[k] == st.offers[k]
    ensures Valid(st) ==> Valid(st')
  {
    Update(st, i, MarkAsMerged(st.offers[i], pdfDocumentId))
  }

  /** What the expiry query selects: active offers whose last day is before today. */
  predicate DueForExpiry(s: Subscription, today: Date) {
    s.isActive && s.listing.applicationEndDate < today
  }

  /** The selection is exactly the active offers `isExpired` reports. */
  lemma DueForExpiryIsExpired(s: Subscription, today: Date)
    ensures DueForExpiry(s, today) <==> s.isActive && IsExpired(s, today)
  {
  }

  /** How many offers the expiry query selects. */
  function DueCount(offers: seq<Subscription>, today: Date): (n: nat)
    ensures n <= |offers|
  {
    if |offers| == 0 then 0
    else DueCount(offers[..|offers| - 1], today) + (if DueForExpiry(offers[|offers| - 1], today) then 1 else 0)
  }

  /** Each offer after the sweep: deactivated if it was selected, otherwise as it was. */
  function Swept(s: Subscription, today: Date): (r: Subscription)
    ensures DueForExpiry(s, today) ==> r == Deactivate(s)
    ensures !DueForExpiry(s, today) ==> r == s
    ensures !DueForExpiry(r, today)
  {
    if DueForExpiry(s, today) then Deactivate(s) else s
  }

  /**
   * `deactivateExpiredSubscriptions`: deactivates every selected offer and
   * returns how many there were; every other offer is left exactly as it was.
   */
  method DeactivateExpired(st: Store, today: Date) returns (st': Store, count: nat)
    ensures |st'.offers| == |st.offers| && st'.nextId == st.nextId
    ensures forall k :: 0 <= k < |st.offers| ==> st'.offers[k] == Swept(st.offers[k], today)
    ensures count == DueCount(st.offers, today)
    ensures forall k :: 0 <= k < |st'.offers| ==> !DueForExpiry(st'.offers[k], today)
    ensures Valid(st) ==> Valid(st')
  {
    var offers := st.offers;
    var i := 0;
    count := 0;
    while i < |offers|
      invariant 0 <= i <= |offers|
      invariant |offers| == |st.offers|
      invariant forall k :: 0 <= k < i ==> offers[k] == Swept(st.offers[k], today)
      invariant forall k :: i <= k < |offers| ==> offers[k] == st.offers[k]
      invariant count == DueCount(st.offers[..i], today)
    {
      assert st.offers[..i + 1][..i] == st.offers[..i];
      if DueForExpiry(offers[i], today) {
        offers := offers[i := Deactivate(offers[i])];
        count := count + 1;
      }
      i := i + 1;
    }
    assert st.offers[..i] == st.offers;
    st' := Store(offers, st.nextId);
    assert forall k :: 0 <= k < |offers| ==> offers[k].id == st.offers[k].id;
  }

  /** The count is zero exactly when no offer is selected; so a second sweep on the same day finds nothing. */
  lemma {:induction false} DueCountZero(offers: seq<Subscription>, today: Date)
    ensures DueCount(offers, today) == 0 <==> forall k :: 0 <= k < |offers| ==> !DueForExpiry(offers[k], today)
  {
    if |offers| > 0 {
      DueCountZero(offers[..|offers| - 1], today);
      assert forall k :: 0 <= k < |offers| - 1 ==> offers[..|offers| - 1][k] == offers[k];
    }
  }
}
