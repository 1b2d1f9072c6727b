/**
 * The background analysis of one uploaded document: mark it PROCESSING,
 * reuse a cached result when there is one, otherwise read the text (by OCR
 * when needed), grade it, extract the criteria, score them against the
 * uploader's profile, merge with a matching offer or create one, and store
 * and cache the result. Any failure marks the document FAILED with its message.
 */
module PdfAnalysis {
  import opened Wrappers
  import opened JavaNumbers
  import opened JavaStrings
  import opened Subscriptions
  import opened OfferStore
  import opened Eligibility
  import Vision
  import Gemini
  import Collector
  import opened PdfDocuments
  import opened PdfCommands
  import opened PdfCache
  import opened SubscriptionCommands

  /** The stored text is cut to this many characters. */
  const MAX_STORED_TEXT: nat := 10000

  const AI_MODEL := "gemini-1.5-pro"

  /** The stored analysis of one document. */
  datatype AnalysisResult = AnalysisResult(
    documentId: nat,
    criteria: Gemini.ExtractedCriteria,
    matchScore: int,
    isEligible: bool,
    ocrQuality: string,
    ocrWarning: Option<string>,
    extractedText: string,
    aiModel: string,
    processingTimeMs: Int32)

  /**
   * Everything the pipeline takes from outside: what the image detector, the
   * OCR client and the model answer for this document, the date parser, the
   * clock readings, and the cache's serializer.
   */
  datatype Env = Env(
    detector: Result<bool, string>,
    ocrClient: Result<Option<string>, string>,
    reply: Result<string, string>,
    parseDate: string -> Option<Date>,
    today: Date,
    monthLater: Date,
    elapsedMs: int,
    now: int,
    codec: Codec<AnalysisResult>)

  /** The stores the pipeline touches. */
  datatype State = State(docs: DocStore, offers: Store, results: seq<AnalysisResult>, cache: Cache)

  /** A run ends completed, failed with a recorded message, or with an exception nobody catches. */
  datatype Outcome = Completed | Failed(message: string) | Escaped(message: string)

  /** The final state, the outcome and the statuses written to the document, in order. */
  datatype Run = Run(state: State, outcome: Outcome, marks: seq<ProcessingStatus>)

  /** The stored text: the extracted text cut to its first 10000 characters. */
  function TruncateText(t: string): (r: string)
    ensures r <= t && |r| <= MAX_STORED_TEXT
    ensures |r| == if |t| <= MAX_STORED_TEXT then |t| else MAX_STORED_TEXT
  {
    if |t| > MAX_STORED_TEXT then t[..MAX_STORED_TEXT] else t
  }

  /** This pipeline's `parseHousingType`: trimmed but not upper-cased, and without the "APT" alias. */
  function ParseHousingType(typeStr: Option<string>): (t: HousingType)
    ensures typeStr.None? ==> t == ETC
    ensures typeStr.Some? ==> t == ClassifyHousingType(Trim(typeStr.value), false)
  {
    if typeStr.None? then ETC else ClassifyHousingType(Trim(typeStr.value), false)
  }

  /** "APT" is an apartment to the registry import but not to the document pipeline. */
  lemma ParsersDisagreeOnApt()
    ensures ParseHousingType(Some("APT")) == ETC
    ensures Collector.ParseHousingType(Some("APT")) == APARTMENT
  {
    TrimOfTrimmed("APT");
    assert ToUpper("APT") == "APT";
    ContainsSelf("APT");
    NotContained("APT", HousingKoreanName(APARTMENT));
    NotContained("APT", HousingKoreanName(OFFICETEL));
    NotContained("APT", HousingKoreanName(VILLA));
    NotContained("APT", HousingKoreanName(TOWNHOUSE));
  }

  /** `parseApplicationEndDate`: the parsed date, or a month from today when the period is missing or unparseable. */
  function ApplicationEndDate(period: Option<string>, env: Env): (d: Date)
    ensures period.Some? && env.parseDate(period.value).Some? ==> d == env.parseDate(period.value).value
    ensures period.None? || env.parseDate(period.value).None? ==> d == env.monthLater
  {
    if period.None? then env.monthLater
    else match env.parseDate(period.value)
      case Some(date) => date
      case None => env.monthLater
  }

  /** `buildSubscriptionFromCriteria`: an active PDF_UPLOAD offer opening today. */
  function BuildSubscription(c: Gemini.ExtractedCriteria, env: Env): (s: Subscription)
    ensures s.provenance == Provenance(PDF_UPLOAD, false, None, None) && s.isActive
    ensures s.listing.name == c.subscriptionName && s.listing.location == c.location
    ensures s.listing.housingType == ParseHousingType(c.housingType)
    ensures s.listing.applicationStartDate == env.today
    ensures s.listing.applicationEndDate == ApplicationEndDate(c.applicationPeriod, env)
    ensures s.criteria == Criteria(c.minAge, c.maxAge, c.minIncome, c.maxIncome,
                                   c.minHouseholdMembers, c.maxHouseholdMembers, c.maxHousingOwned)
    ensures ProvenanceConsistent(s)
  {
    var listing := Listing(
      c.subscriptionName, c.location, c.address, ParseHousingType(c.housingType),
      c.minPrice, c.maxPrice, c.specialQualifications, c.preferenceCategories,
      env.today, ApplicationEndDate(c.applicationPeriod, env));
    var criteria := Criteria(c.minAge, c.maxAge, c.minIncome, c.maxIncome,
                             c.minHouseholdMembers, c.maxHouseholdMembers, c.maxHousingOwned);
    Subscription(0, listing, criteria, Provenance(PDF_UPLOAD, false, None, None), true)
  }

  /**
   * What `findDuplicateSubscription` looks for: an active offer whose name
   * contains the extracted name and whose location equals the extracted one.
   */
  predicate IsDuplicate(s: Subscription, c: Gemini.ExtractedCriteria) {
    && s.isActive
    && c.subscriptionName.Some? && c.location.Some?
    && s.listing.name.Some? && Contains(s.listing.name.value, c.subscriptionName.value)
    && s.listing.location == c.location
  }

  /** The position of the first duplicate at or after `k`. */
  function FindDuplicateFrom(offers: seq<Subscription>, c: Gemini.ExtractedCriteria, k: nat): (r: Option<nat>)
    requires k <= |offers|
    ensures r.Some? ==>
      && k <= r.value < |offers| && IsDuplicate(offers[r.value], c)
      && forall j :: k <= j < r.value ==> !IsDuplicate(offers[j], c)
    ensures r.None? ==> forall j :: k <= j < |offers| ==> !IsDuplicate(offers[j], c)
    decreases |offers| - k
  {
    if k == |offers| then None
    else if IsDuplicate(offers[k], c) then Some(k)
    else FindDuplicateFrom(offers, c, k + 1)
  }

  /** `findDuplicateSubscription`: the first duplicate in table order, none when name or location is missing. */
  function FindDuplicate(offers: seq<Subscription>, c: Gemini.ExtractedCriteria): (r: Option<nat>)
    ensures c.subscriptionName.None? || c.location.None? ==> r.None?
    ensures r.Some? ==>
      && r.value < |offers| && IsDuplicate(offers[r.value], c)
      && forall j :: 0 <= j < r.value ==> !IsDuplicate(offers[j], c)
    ensures r.None? ==> forall j :: 0 <= j < |offers| ==> !IsDuplicate(offers[j], c)
  {
    if c.subscriptionName.None? || c.location.None? then None else FindDuplicateFrom(offers, c, 0)
  }

  /** The text and whether OCR produced it: OCR when the detector says so or fails, else the (empty) direct extraction. */
  function ExtractText(env: Env): (r: Result<(string, bool), string>)
    ensures r.Failure? <==> Vision.DetectImageContent(env.detector) && env.ocrClient.Failure?
    ensures r.Failure? ==> r.error == "OCR processing failed: " + env.ocrClient.error
    ensures r.Success? ==> r.value.1 == Vision.DetectImageContent(env.detector)
    ensures r.Success? && !r.value.1 ==> r.value.0 == []
    ensures r.Success? && r.value.1 ==> r.value.0 == Vision.PerformOcr(env.ocrClient).value
  {
    if Vision.DetectImageContent(env.detector) then
      var text :- Vision.PerformOcr(env.ocrClient);
      Success((text, true))
    else Success(([], false))
  }

  /** The grade: assessed for OCR text, HIGH with no warning for a text document. */
  function Grade(text: string, usedOcr: bool): (g: Vision.OcrQualityResult)
    ensures !usedOcr ==> g == Vision.OcrQualityResult(Vision.HIGH, None)
    ensures usedOcr ==> g == Vision.AssessOcrQuality(Some(text))
    ensures g.quality == Vision.HIGH <==> g.warning.None?
  {
    if usedOcr then Vision.AssessOcrQuality(Some(text)) else Vision.OcrQualityResult(Vision.HIGH, None)
  }

  /** Everything computed before the first write to the offer table. */
  datatype Analysis = Analysis(
    criteria: Gemini.ExtractedCriteria,
    text: string,
    grade: Vision.OcrQualityResult,
    isEligible: bool,
    matchScore: int)

  /** Eligibility and score of the extracted offer; without a profile, not eligible and zero. */
  function ScoreAgainst(profile: Option<Profile>, s: Subscription): (r: (bool, int))
    ensures profile.None? ==> r == (false, 0)
    ensures profile.Some? ==> r.0 == IsEligible(profile.value, s) && r.1 == MatchScore(profile.value, s)
    ensures 0 <= r.1 <= 100 && (r.1 == 0 <==> !r.0)
  {
    if profile.None? then (false, 0) else (IsEligible(profile.value, s), MatchScore(profile.value, s))
  }

  /** Steps 3 to 7: text, grade, criteria and score. OCR failure comes first, then extraction failure. */
  function Prepare(env: Env, profile: Option<Profile>): (r: Result<Analysis, string>)
    ensures ExtractText(env).Failure? ==> r == Failure(ExtractText(env).error)
    ensures ExtractText(env).Success? ==>
      (r.Failure? <==> Gemini.ExtractCriteria(env.reply).Failure?)
    ensures ExtractText(env).Success? && r.Failure? ==> r.error == Gemini.ExtractCriteria(env.reply).error
    ensures r.Success? ==>
      && ExtractText(env).Success?
      && r.value.criteria == Gemini.ExtractCriteria(env.reply).value
      && r.value.text == ExtractText(env).value.0
      && r.value.grade == Grade(r.value.text, ExtractText(env).value.1)
      && (r.value.isEligible, r.value.matchScore) == ScoreAgainst(profile, BuildSubscription(r.value.criteria, env))
  {
    var (text, usedOcr) :- ExtractText(env);
    var criteria :- Gemini.ExtractCriteria(env.reply);
    var (eligible, score) := ScoreAgainst(profile, BuildSubscription(criteria, env));
    Success(Analysis(criteria, text, Grade(text, usedOcr), eligible, score))
  }

  /** Steps 8 to 10: merge into the first duplicate, or create a new offer; a refused insert fails. */
  function RecordOffer(offers: Store, c: Gemini.ExtractedCriteria, id: nat, env: Env): (r: Result<Store, string>)
    ensures FindDuplicate(offers.offers, c).Some? ==>
      r == Success(MergeWithPdfData(offers, FindDuplicate(offers.offers, c).value, DecimalString(id)))
    ensures FindDuplicate(offers.offers, c).None? ==>
      (r.Success? <==> Persistable(BuildSubscription(c, env)))
    ensures FindDuplicate(offers.offers, c).None? && r.Success? ==>
      r.value.offers == offers.offers + [BuildSubscription(c, env).(id := offers.nextId)]
    ensures r.Success? && Valid(offers) ==> Valid(r.value)
  {
    match FindDuplicate(offers.offers, c)
    case Some(i) => Success(MergeWithPdfData(offers, i, DecimalString(id)))
    case None =>
      var (offers', _) :- Insert(offers, BuildSubscription(c, env));
      Success(offers')
  }

  /** `buildAnalysisResult`. */
  function BuildResult(id: nat, a: Analysis, env: Env): (r: AnalysisResult)
    ensures r.documentId == id && r.criteria == a.criteria && r.aiModel == AI_MODEL
    ensures r.extractedText <= a.text && |r.extractedText| <= MAX_STORED_TEXT
    ensures r.ocrQuality == Vision.QualityName(a.grade.quality) && r.ocrWarning == a.grade.warning
    ensures r.isEligible == a.isEligible && r.matchScore == a.matchScore
    ensures r.processingTimeMs == Wrap32(env.elapsedMs)
  {
    AnalysisResult(id, a.criteria, a.matchScore, a.isEligible, Vision.QualityName(a.grade.quality),
                   a.grade.warning, TruncateText(a.text), AI_MODEL, Wrap32(env.elapsedMs))
  }

  /** The catch block: the document is marked FAILED with the message; nothing else changes. */
  function Fail(s: State, id: nat, message: string): (r: Run)
    requires id in s.docs.docs
  {
    Run(s.(docs := MarkAsFailed(s.docs, id, message).value), Failed(message), [PROCESSING, FAILED])
  }

  /** `analyzePdfAsync`. */
  function Analyze(s: State, env: Env, id: nat, profile: Option<Profile>): (r: Run)
    ensures r.outcome.Escaped? <==> id !in s.docs.docs
    ensures r.outcome.Escaped? ==> r.state == s && r.marks == [] && r.outcome.message == NotFoundMessage(id)
    ensures !r.outcome.Escaped? ==>
      && r.marks == [PROCESSING, if r.outcome.Completed? then COMPLETED else FAILED]
      && id in r.state.docs.docs && r.state.docs.docs[id].status == r.marks[1]
      && r.state.docs.docs.Keys == s.docs.docs.Keys
      && forall other :: other in s.docs.docs && other != id ==> r.state.docs.docs[other] == s.docs.docs[other]
    ensures r.outcome.Failed? ==>
      && r.state.docs.docs[id].errorMessage == Some(r.outcome.message)
      && r.state.offers == s.offers && r.state.results == s.results && r.state.cache == s.cache
    ensures r.outcome.Completed? ==>
      && s.results <= r.state.results && |r.state.results| == |s.results| + 1
      && r.state.results[|s.results|].documentId == id
    ensures r.outcome.Completed? && id in s.docs.docs && CacheHit(s, env, id) ==>
      r.state.cache == ExtendTtl(s.cache, s.docs.docs[id].cacheKey, env.now)
    ensures r.outcome.Completed? && id in s.docs.docs && !CacheHit(s, env, id) ==>
      r.state.cache == Put(s.cache, env.codec, s.docs.docs[id].cacheKey, r.state.results[|s.results|], env.now)
    ensures Valid(s.offers) ==> Valid(r.state.offers)
  {
    if id !in s.docs.docs then Run(s, Escaped(NotFoundMessage(id)), [])
    else
      var doc := s.docs.docs[id];
      var processing := s.(docs := MarkAsProcessing(s.docs, id).value);
      match Get(s.cache, env.codec, doc.cacheKey, env.now)
      case Some(cached) =>
        Run(State(MarkAsCompleted(processing.docs, id).value, s.offers, s.results + [cached.(documentId := id)],
                  ExtendTtl(s.cache, doc.cacheKey, env.now)),
            Completed, [PROCESSING, COMPLETED])
      case None =>
        match Prepare(env, profile)
        case Failure(message) => Fail(processing, id, message)
        case Success(a) =>
          match RecordOffer(s.offers, a.criteria, id, env)
          case Failure(message) => Fail(processing, id, message)
          case Success(offers') =>
            var result := BuildResult(id, a, env);
            Run(State(MarkAsCompleted(processing.docs, id).value, offers', s.results + [result],
                      Put(s.cache, env.codec, doc.cacheKey, result, env.now)),
                Completed, [PROCESSING, COMPLETED])
  }

  /** The document's cache key has a live, decodable entry. */
  predicate CacheHit(s: State, env: Env, id: nat)
    requires id in s.docs.docs
  {
    Get(s.cache, env.codec, s.docs.docs[id].cacheKey, env.now).Some?
  }

  /**
   * A cache hit completes without consulting the detector, the OCR client or
   * the model, leaves the offers alone, stores the cached result rebound to
   * this document, and gives the entry another thirty days.
   */
  lemma CacheHitSkipsExtraction(s: State, env: Env, id: nat, profile: Option<Profile>,
                                detector: Result<bool, string>, ocrClient: Result<Option<string>, string>,
                                reply: Result<string, string>)
    requires id in s.docs.docs && CacheHit(s, env, id)
    ensures var r := Analyze(s, env, id, profile);
      && r == Analyze(s, env.(detector := detector, ocrClient := ocrClient, reply := reply), id, profile)
      && r.outcome == Completed && r.state.offers == s.offers
      && r.state.results[|s.results|]
         == Get(s.cache, env.codec, s.docs.docs[id].cacheKey, env.now).value.(documentId := id)
      && r.state.cache == ExtendTtl(s.cache, s.docs.docs[id].cacheKey, env.now)
  {
  }

  /**
   * On a miss, a completed run's fresh result is what the cache gives back for
   * the next thirty days, provided the serializer round-trips it.
   */
  lemma FreshResultReadBack(s: State, env: Env, id: nat, profile: Option<Profile>, later: int)
    requires id in s.docs.docs && !CacheHit(s, env, id)
    requires env.now <= later < env.now + DEFAULT_TTL
    ensures var r := Analyze(s, env, id, profile);
      r.outcome.Completed? && RoundTrips(env.codec, r.state.results[|s.results|]) ==>
        Get(r.state.cache, env.codec, s.docs.docs[id].cacheKey, later) == Some(r.state.results[|s.results|])
  {
    var r := Analyze(s, env, id, profile);
    if r.outcome.Completed? && RoundTrips(env.codec, r.state.results[|s.results|]) {
      PutThenGet(s.cache, env.codec, s.docs.docs[id].cacheKey, r.state.results[|s.results|], env.now, later);
    }
  }

  /** On a miss, a failing OCR client fails the run with its message and changes no offer. */
  lemma OcrFailureIsRecorded(s: State, env: Env, id: nat, profile: Option<Profile>)
    requires id in s.docs.docs && !CacheHit(s, env, id)
    requires Vision.DetectImageContent(env.detector) && env.ocrClient.Failure?
    ensures var r := Analyze(s, env, id, profile);
      && r.outcome == Failed("OCR processing failed: " + env.ocrClient.error)
      && r.state.docs.docs[id].errorMessage == Some("OCR processing failed: " + env.ocrClient.error)
  {
  }

  /** On a miss, a failing model call fails the run with the extraction prefix, whatever the OCR produced. */
  lemma ModelFailureIsRecorded(s: State, env: Env, id: nat, profile: Option<Profile>)
    requires id in s.docs.docs && !CacheHit(s, env, id)
    requires ExtractText(env).Success? && env.reply.Failure?
    ensures Analyze(s, env, id, profile).outcome == Failed(Gemini.EXTRACTION_PREFIX + env.reply.error)
  {
  }

  /**
   * On a miss that completes, exactly one offer is written: either the first
   * duplicate becomes MERGED and names this document, or one PDF_UPLOAD offer
   * is appended.
   */
  lemma MergeOrCreate(s: State, env: Env, id: nat, profile: Option<Profile>)
    requires id in s.docs.docs && !CacheHit(s, env, id)
    ensures Analyze(s, env, id, profile).outcome == Completed ==>
      var offers' := Analyze(s, env, id, profile).state.offers;
      var c := Prepare(env, profile).value.criteria;
      match FindDuplicate(s.offers.offers, c)
      case Some(i) =>
        && |offers'.offers| == |s.offers.offers|
        && offers'.offers[i].provenance.dataSource == MERGED
        && offers'.offers[i].provenance.pdfDocumentId == Some(DecimalString(id))
        && forall k :: 0 <= k < |s.offers.offers| && k != i ==> offers'.offers[k] == s.offers.offers[k]
      case None =>
        && s.offers.offers <= offers'.offers && |offers'.offers| == |s.offers.offers| + 1
        && offers'.offers[|s.offers.offers|].provenance.dataSource == PDF_UPLOAD
        && offers'.offers[|s.offers.offers|].isActive
  {
    if Analyze(s, env, id, profile).outcome != Completed {
      return;
    }
    var c := Prepare(env, profile).value.criteria;
    if FindDuplicate(s.offers.offers, c).None? {
      var offers' := Analyze(s, env, id, profile).state.offers;
      assert offers'.offers == s.offers.offers + [BuildSubscription(c, env).(id := s.offers.nextId)];
    }
  }

  /**
   * A text document (the detector says no images) completes with grade HIGH,
   * no warning and an empty stored text; with no profile it is scored
   * ineligible with zero.
   */
  lemma TextDocumentResult(s: State, env: Env, id: nat)
    requires id in s.docs.docs && !CacheHit(s, env, id)
    requires env.detector == Success(false)
    ensures Analyze(s, env, id, None).outcome == Completed ==>
      var res := Analyze(s, env, id, None).state.results[|s.results|];
      && res.ocrQuality == "HIGH" && res.ocrWarning.None? && res.extractedText == []
      && !res.isEligible && res.matchScore == 0
  {
  }

  /** The stored text of a fresh analysis is a prefix of the OCR text of at most 10000 characters. */
  lemma StoredTextBounded(s: State, env: Env, id: nat, profile: Option<Profile>)
    requires id in s.docs.docs && !CacheHit(s, env, id)
    ensures Analyze(s, env, id, profile).outcome == Completed ==>
      var res := Analyze(s, env, id, profile).state.results[|s.results|];
      && |res.extractedText| <= MAX_STORED_TEXT
      && res.extractedText <= ExtractText(env).value.0
  {
  }
}
