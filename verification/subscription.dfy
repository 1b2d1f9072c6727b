/** The housing-subscription offer entity and its own state changes. */
module Subscriptions {
  import opened Wrappers
  import opened JavaNumbers
  import opened JavaStrings

  /** A calendar day as a day number; later days are larger. */
  type Date = int

  datatype HousingType = APARTMENT | OFFICETEL | VILLA | TOWNHOUSE | ETC

  /** The display name of each housing type. */
  function HousingKoreanName(t: HousingType): string {
    match t
    case APARTMENT => "아파트"
    case OFFICETEL => "오피스텔"
    case VILLA => "빌라"
    case TOWNHOUSE => "타운하우스"
    case ETC => "기타"
  }

  /** The text names an apartment: its Korean name, or the registry's "APT" when that alias is accepted. */
  predicate NamesApartment(text: string, aptAlias: bool) {
    Contains(text, HousingKoreanName(APARTMENT)) || (aptAlias && Contains(text, "APT"))
  }

  /**
   * Both `parseHousingType`s: the first of apartment, officetel, villa and
   * townhouse whose name the text contains, else ETC.
   */
  function ClassifyHousingType(text: string, aptAlias: bool): (t: HousingType)
    ensures t == APARTMENT <==> NamesApartment(text, aptAlias)
    ensures t == OFFICETEL <==> !NamesApartment(text, aptAlias) && Contains(text, HousingKoreanName(OFFICETEL))
    ensures t == VILLA <==>
      !NamesApartment(text, aptAlias) && !Contains(text, HousingKoreanName(OFFICETEL))
      && Contains(text, HousingKoreanName(VILLA))
    ensures t == TOWNHOUSE <==>
      !NamesApartment(text, aptAlias) && !Contains(text, HousingKoreanName(OFFICETEL))
      && !Contains(text, HousingKoreanName(VILLA)) && Contains(text, HousingKoreanName(TOWNHOUSE))
    ensures t == ETC <==>
      forall u :: u != ETC ==> !(if u == APARTMENT then NamesApartment(text, aptAlias) else Contains(text, HousingKoreanName(u)))
  {
    if NamesApartment(text, aptAlias) then APARTMENT
    else if Contains(text, HousingKoreanName(OFFICETEL)) then OFFICETEL
    else if Contains(text, HousingKoreanName(VILLA)) then VILLA
    else if Contains(text, HousingKoreanName(TOWNHOUSE)) then TOWNHOUSE
    else ETC
  }

  /** Each type's own display name classifies as that type. */
  lemma ClassifyOwnName(t: HousingType, aptAlias: bool)
    ensures ClassifyHousingType(HousingKoreanName(t), aptAlias) == t
  {
    ContainsSelf(HousingKoreanName(t));
    var names := ["아파트", "APT", "오피스텔", "빌라", "타운하우스", "기타"];
    forall a, b | 0 <= a < |names| && 0 <= b < |names| - 1 && a != b
      ensures !Contains(names[a], names[b])
    {
      NotContained(names[a], names[b]);
    }
    assert names[2] == HousingKoreanName(OFFICETEL) && names[3] == HousingKoreanName(VILLA);
    assert names[4] == HousingKoreanName(TOWNHOUSE) && names[5] == HousingKoreanName(ETC);
    assert names[0] == HousingKoreanName(APARTMENT) && names[1] == "APT";
  }

  /** Where an offer came from: the public registry feed, an uploaded document, or both. */
  datatype DataSource = PUBLIC_DB | PDF_UPLOAD | MERGED

  /** What the offer is: name, place, kind, price range, free-text conditions and application window. */
  datatype Listing = Listing(
    name: Option<string>,
    location: Option<string>,
    address: Option<string>,
    housingType: HousingType,
    minPrice: Option<int>,
    maxPrice: Option<int>,
    specialQualifications: Option<string>,
    preferenceCategories: Option<string>,
    applicationStartDate: Date,
    applicationEndDate: Date)

  /** The eligibility bounds; `None` leaves that side unrestricted. */
  datatype Criteria = Criteria(
    minAge: Option<NatInt>,
    maxAge: Option<NatInt>,
    minIncome: Option<NatLong>,
    maxIncome: Option<NatLong>,
    minHouseholdMembers: Option<NatInt>,
    maxHouseholdMembers: Option<NatInt>,
    maxHousingOwned: Option<NatInt>)

  /** Provenance: the data source, the merged flag and the two external references. */
  datatype Provenance = Provenance(
    dataSource: DataSource,
    isMerged: bool,
    publicDataId: Option<string>,
    pdfDocumentId: Option<string>)

  datatype Subscription = Subscription(
    id: nat,
    listing: Listing,
    criteria: Criteria,
    provenance: Provenance,
    isActive: bool)

  /** The builder's defaults for the fields a caller leaves unset. */
  const DefaultProvenance := Provenance(PUBLIC_DB, false, None, None)

  /** A subscription as the builder makes it when only listing and criteria are given (id 0 until saved). */
  function Build(listing: Listing, criteria: Criteria): (s: Subscription)
    ensures s.provenance.dataSource == PUBLIC_DB && !s.provenance.isMerged && s.isActive
    ensures ProvenanceConsistent(s)
  {
    Subscription(0, listing, criteria, DefaultProvenance, true)
  }

  /** The merged flag and the MERGED source go together, and a merged offer names its document. */
  predicate ProvenanceConsistent(s: Subscription) {
    && (s.provenance.isMerged <==> s.provenance.dataSource == MERGED)
    && (s.provenance.isMerged ==> s.provenance.pdfDocumentId.Some?)
  }

  /** `markAsMerged`: records that an uploaded document enriched this offer. */
  function MarkAsMerged(s: Subscription, pdfDocumentId: string): (r: Subscription)
    ensures r.provenance.isMerged && r.provenance.dataSource == MERGED
    ensures r.provenance.pdfDocumentId == Some(pdfDocumentId)
    ensures r.provenance.publicDataId == s.provenance.publicDataId
    ensures r.id == s.id && r.listing == s.listing && r.criteria == s.criteria && r.isActive == s.isActive
    ensures ProvenanceConsistent(r)
  {
    s.(provenance := s.provenance.(isMerged := true, dataSource := MERGED, pdfDocumentId := Some(pdfDocumentId)))
  }

  /** `deactivate`: only the active flag changes. */
  function Deactivate(s: Subscription): (r: Subscription)
    ensures !r.isActive
    ensures r.id == s.id && r.listing == s.listing && r.criteria == s.criteria && r.provenance == s.provenance
    ensures ProvenanceConsistent(s) ==> ProvenanceConsistent(r)
  {
    s.(isActive := false)
  }

  /** `isExpired`: today lies strictly after the last application day. */
  predicate IsExpired(s: Subscription, today: Date) {
    today > s.listing.applicationEndDate
  }

  /** The last application day itself is not expired; the day after is. */
  lemma ExpiryBoundary(s: Subscription)
    ensures !IsExpired(s, s.listing.applicationEndDate)
    ensures IsExpired(s, s.listing.applicationEndDate + 1)
  {
  }
}
