/** The subscription table, as the repository exposes it: rows in id order. */
module OfferStore {
  import opened Wrappers
  import opened Subscriptions

  datatype Store = Store(offers: seq<Subscription>, nextId: nat)

  /** Ids are distinct and below the next id to hand out. */
  predicate Valid(st: Store) {
    && (forall i :: 0 <= i < |st.offers| ==> st.offers[i].id < st.nextId)
    && (forall i, j :: 0 <= i < j < |st.offers| ==> st.offers[i].id != st.offers[j].id)
  }

  /** The columns declared NOT NULL that a caller can leave unset. */
  predicate Persistable(s: Subscription) {
    s.listing.name.Some? && s.listing.location.Some? && s.listing.minPrice.Some? && s.listing.maxPrice.Some?
  }

  /** The first NOT NULL column left unset. */
  function MissingColumn(s: Subscription): string
    requires !Persistable(s)
  {
    if s.listing.name.None? then "name"
    else if s.listing.location.None? then "location"
    else if s.listing.minPrice.None? then "minPrice"
    else "maxPrice"
  }

  /** Inserts a new row with a fresh id; a row with an unset NOT NULL column is refused. */
  function Insert(st: Store, s: Subscription): (r: Result<(Store, nat), string>)
    ensures r.Success? <==> Persistable(s)
    ensures r.Success? ==> var (st', id) := r.value;
      && id == st.nextId
      && st'.offers == st.offers + [s.(id := id)]
      && st'.nextId == st.nextId + 1
      && (Valid(st) ==> Valid(st'))
    ensures r.Failure? ==> r.error == MissingColumn(s)
  {
    if Persistable(s) then
      Success((Store(st.offers + [s.(id := st.nextId)], st.nextId + 1), st.nextId))
    else
      Failure(MissingColumn(s))
  }

  /** Writes back a changed row at position `i`, keeping its id. */
  function Update(st: Store, i: nat, s: Subscription): (st': Store)
    requires i < |st.offers| && s.id == st.offers[i].id
    ensures st'.offers == st.offers[i := s] && st'.nextId == st.nextId
    ensures Valid(st) ==> Valid(st')
  {
    Store(st.offers[i := s], st.nextId)
  }

  /** The rows whose registry id equals `publicDataId` (both absent counts as equal, as the derived query does). */
  function WithPublicDataId(offers: seq<Subscription>, publicDataId: Option<string>): (r: seq<nat>)
    ensures forall k :: 0 <= k < |r| ==> r[k] < |offers| && offers[r[k]].provenance.publicDataId == publicDataId
    ensures forall i :: 0 <= i < |offers| && offers[i].provenance.publicDataId == publicDataId ==> i in r
    ensures forall a, b :: 0 <= a < b < |r| ==> r[a] < r[b]
  {
    if |offers| == 0 then []
    else
      var rest := WithPublicDataId(offers[..|offers| - 1], publicDataId);
      if offers[|offers| - 1].provenance.publicDataId == publicDataId then rest + [|offers| - 1] else rest
  }
}
