/** The nightly registry import: normalising feed records into offers and upserting them by registry id. */
module Collector {
  import opened Wrappers
  import opened JavaStrings
  import opened Subscriptions
  import opened OfferStore

  /** A record of the registry feed; the feed client is outside the model. */
  datatype PublicSubscriptionDto = PublicSubscriptionDto(
    externalId: Option<string>,
    name: Option<string>,
    location: Option<string>,
    housingType: Option<string>,
    applicationStartDate: Option<Date>,
    applicationEndDate: Option<Date>,
    minPrice: int,
    maxPrice: int)

  /** The region keywords, in the order they are tried. */
  const PROVINCES: seq<string> := ["서울", "경기", "인천", "부산", "대구", "대전", "광주", "울산", "세종"]

  const OTHER_REGION := "기타"

  /** The first keyword at or after position `k` that the address contains. */
  function FirstProvinceFrom(address: string, k: nat): (r: Option<nat>)
    requires k <= |PROVINCES|
    ensures r.Some? ==>
      && k <= r.value < |PROVINCES| && Contains(address, PROVINCES[r.value])
      && forall j :: k <= j < r.value ==> !Contains(address, PROVINCES[j])
    ensures r.None? ==> forall j :: k <= j < |PROVINCES| ==> !Contains(address, PROVINCES[j])
    decreases |PROVINCES| - k
  {
    if k == |PROVINCES| then None
    else if Contains(address, PROVINCES[k]) then Some(k)
    else FirstProvinceFrom(address, k + 1)
  }

  /**
   * `extractLocation`: "기타" for a missing or empty address; otherwise the
   * first region keyword the address contains, in the fixed order; otherwise
   * the address up to its first space, or "기타" when it is all spaces.
   */
  function ExtractLocation(address: Option<string>): (loc: string)
    ensures address.None? || address.value == [] ==> loc == OTHER_REGION
    ensures address.Some? && address.value != [] && FirstProvinceFrom(address.value, 0).Some? ==>
      exists i :: 0 <= i < |PROVINCES| && loc == PROVINCES[i] && Contains(address.value, PROVINCES[i])
        && forall j :: 0 <= j < i ==> !Contains(address.value, PROVINCES[j])
    ensures address.Some? && address.value != [] && FirstProvinceFrom(address.value, 0).None? ==>
      if forall k :: 0 <= k < |address.value| ==> address.value[k] == ' ' then loc == OTHER_REGION
      else
        && loc <= address.value && ' ' !in loc
        && (|loc| == |address.value| || address.value[|loc|] == ' ')
  {
    if address.None? || address.value == [] then OTHER_REGION
    else
      var a := address.value;
      match FirstProvinceFrom(a, 0)
      case Some(i) => PROVINCES[i]
      case None =>
        var parts := Split(a, ' ');
        SplitFirstPiece(a, ' ');
        FirstPieceMaximal(a, ' ');
        if |parts| > 0 then parts[0] else OTHER_REGION
  }

  /** An address naming no province maps to its first word when that word is non-empty. */
  lemma FirstWordIsRegion(word: string, rest: string)
    requires |word| > 0 && ' ' !in word
    requires FirstProvinceFrom(word + [' '] + rest, 0).None?
    ensures ExtractLocation(Some(word + [' '] + rest)) == word
  {
    var a := word + [' '] + rest;
    var loc := ExtractLocation(Some(a));
    assert a[0] == word[0] != ' ';
    assert a[|word|] == ' ';
    assert forall i :: 0 <= i < |loc| ==> a[i] == loc[i] != ' ';
    assert forall i :: 0 <= i < |word| ==> a[i] == word[i] != ' ';
    assert |loc| == |word|;
    assert loc == a[..|word|] == word;
  }

  /** A leading space leaves an empty first word, so such an address maps to the empty region. */
  lemma LeadingSpaceGivesEmptyRegion(rest: string)
    requires ' ' !in rest && |rest| > 0
    requires FirstProvinceFrom([' '] + rest, 0).None?
    ensures ExtractLocation(Some([' '] + rest)) == []
  {
    LeadingSeparatorSplit(rest, ' ');
  }

  /** The registry's `parseHousingType`: trimmed and upper-cased, "APT" also meaning apartment. */
  function ParseHousingType(typeStr: Option<string>): (t: HousingType)
    ensures typeStr.None? ==> t == ETC
    ensures typeStr.Some? ==> t == ClassifyHousingType(ToUpper(Trim(typeStr.value)), true)
  {
    if typeStr.None? then ETC else ClassifyHousingType(ToUpper(Trim(typeStr.value)), true)
  }

  /** Lower-case "apt" is an apartment too. */
  lemma LowerAptIsApartment()
    ensures ParseHousingType(Some("apt")) == APARTMENT
  {
    TrimOfTrimmed("apt");
    assert ToUpper("apt") == "APT";
    ContainsSelf("APT");
  }

  /** The criteria every registry offer gets: age 19 and up, at least one household member, no home owned. */
  const REGISTRY_CRITERIA := Criteria(Some(19), None, None, None, Some(1), None, Some(0))

  /** A record can become a row only when both application dates are present. */
  predicate HasDates(dto: PublicSubscriptionDto) {
    dto.applicationStartDate.Some? && dto.applicationEndDate.Some?
  }

  /** `convertToSubscription`. */
  function ConvertToSubscription(dto: PublicSubscriptionDto): (s: Subscription)
    requires HasDates(dto)
    ensures s.criteria == REGISTRY_CRITERIA
    ensures s.provenance == Provenance(PUBLIC_DB, false, dto.externalId, None) && s.isActive
    ensures s.listing.name == dto.name && s.listing.address == dto.location
    ensures s.listing.location == Some(ExtractLocation(dto.location))
    ensures s.listing.housingType == ParseHousingType(dto.housingType)
    ensures s.listing.minPrice == Some(dto.minPrice) && s.listing.maxPrice == Some(dto.maxPrice)
    ensures s.listing.applicationEndDate == dto.applicationEndDate.value
    ensures Persistable(s) <==> dto.name.Some?
    ensures ProvenanceConsistent(s)
  {
    var listing := Listing(
      dto.name, Some(ExtractLocation(dto.location)), dto.location, ParseHousingType(dto.housingType),
      Some(dto.minPrice), Some(dto.maxPrice), None, None,
      dto.applicationStartDate.value, dto.applicationEndDate.value);
    Subscription(0, listing, REGISTRY_CRITERIA, Provenance(PUBLIC_DB, false, dto.externalId, None), true)
  }

  datatype Outcome = Created | Updated | Skipped

  /** A row the import adds: from the registry, active, with the default criteria. */
  predicate RegistryRow(s: Subscription) {
    s.provenance.dataSource == PUBLIC_DB && s.isActive && s.criteria == REGISTRY_CRITERIA
  }

  /**
   * One record of the loop: look the registry id up (an absent id matches
   * rows without one); no match creates, one match is an update that writes
   * the row back unchanged, and several matches or a refused insert skip it.
   */
  function ImportRecord(st: Store, dto: PublicSubscriptionDto): (r: (Store, Outcome))
    ensures var matches := |WithPublicDataId(st.offers, dto.externalId)|;
      && (r.1 == Created <==> matches == 0 && HasDates(dto) && dto.name.Some?)
      && (r.1 == Updated <==> matches == 1)
    ensures r.1 == Created ==>
      && r.0.offers == st.offers + [ConvertToSubscription(dto).(id := st.nextId)]
      && r.0.nextId == st.nextId + 1
      && RegistryRow(r.0.offers[|st.offers|])
    ensures r.1 != Created ==> r.0 == st
    ensures Valid(st) ==> Valid(r.0)
  {
    var matches := WithPublicDataId(st.offers, dto.externalId);
    if |matches| == 0 then
      if !HasDates(dto) then (st, Skipped)
      else
        match Insert(st, ConvertToSubscription(dto))
        case Success((st', _)) => (st', Created)
        case Failure(_) => (st, Skipped)
    else if |matches| == 1 then
      var i := matches[0];
      (Update(st, i, st.offers[i]), Updated)
    else (st, Skipped)
  }

  /** A strictly increasing sequence of values in `[lo, hi)` has at most `hi - lo` elements. */
  lemma {:induction false} IncreasingWithinRange(m: seq<nat>, lo: nat, hi: nat)
    requires lo <= hi
    requires forall k :: 0 <= k < |m| ==> lo <= m[k] < hi
    requires forall a, b :: 0 <= a < b < |m| ==> m[a] < m[b]
    ensures |m| <= hi - lo
  {
    if |m| > 0 {
      IncreasingWithinRange(m[1..], m[0] + 1, hi);
    }
  }

  /** A record whose registry id is already on exactly one row updates it and adds nothing. */
  lemma KnownIdUpdates(st: Store, dto: PublicSubscriptionDto, i: nat)
    requires i < |st.offers| && st.offers[i].provenance.publicDataId == dto.externalId
    requires forall k :: 0 <= k < |st.offers| && k != i ==> st.offers[k].provenance.publicDataId != dto.externalId
    ensures ImportRecord(st, dto) == (st, Updated)
  {
    var matches := WithPublicDataId(st.offers, dto.externalId);
    assert i in matches;
    IncreasingWithinRange(matches, i, i + 1);
    assert st.offers[i := st.offers[i]] == st.offers;
  }

  /**
   * `collectPublicData`: every record ends in exactly one of the three
   * counters; rows already present are never changed, and every added row is
   * a registry row. A failing feed changes nothing.
   */
  method CollectPublicData(st: Store, feed: Result<seq<PublicSubscriptionDto>, string>)
    returns (st': Store, created: nat, updated: nat, skipped: nat)
    requires Valid(st)
    ensures feed.Failure? ==> st' == st && created == 0 && updated == 0 && skipped == 0
    ensures feed.Success? ==> created + updated + skipped == |feed.value|
    ensures st.offers <= st'.offers && |st'.offers| == |st.offers| + created
    ensures forall k :: |st.offers| <= k < |st'.offers| ==> RegistryRow(st'.offers[k])
    ensures Valid(st')
  {
    st' := st;
    created, updated, skipped := 0, 0, 0;
    if feed.Failure? {
      return;
    }
    var records := feed.value;
    var i := 0;
    while i < |records|
      invariant 0 <= i <= |records|
      invariant created + updated + skipped == i
      invariant st.offers <= st'.offers && |st'.offers| == |st.offers| + created
      invariant forall k :: |st.offers| <= k < |st'.offers| ==> RegistryRow(st'.offers[k])
      invariant Valid(st')
      decreases |records| - i
    {
      var (next, outcome) := ImportRecord(st', records[i]);
      match outcome {
        case Created => created := created + 1;
        case Updated => updated := updated + 1;
        case Skipped => skipped := skipped + 1;
      }
      st' := next;
      i := i + 1;
    }
  }
}
