# zipduck decision core in Dafny

zipduck matches Korean housing-subscription offers (청약) to a user's profile and reads offer
documents that users upload. This project models the decision logic of that system as pure
Dafny functions and proves properties about them:

- **Eligibility and scoring.** The inclusive, null-tolerant bound checks. The penalty-based
  0–100 match score. The five-axis detailed scorer with its reason text. The recommendation
  filter and its stable descending sort.
- **The document pipeline.** The orchestrator's status flow (PENDING, PROCESSING, COMPLETED,
  FAILED) and its failure containment. OCR quality tiering. The tolerant scanner that reads
  fields from the language model's JSON answer. Duplicate detection by name and region. The
  change of an offer's provenance from registry data to MERGED.
- **Stores and sweeps.** The content-keyed result cache with a 30-day expiry. The hex
  fingerprint that keys it. The sweep that deactivates expired offers.
- **The registry collector.** Region and housing-type normalisation, conversion of feed
  records, and the create-or-update loop.
- **Small helpers.**
  - the upload validators on both server and client;
  - the comparison summary and the browser's comparison list (at most 4);
  - the score colour and label bands and the grouping of requirements by category;
  - the login-lock counter;
  - notification gating and retry.

Java semantics are written out where they matter:
- `String.trim` removes characters up to U+0020;
- `split` on a one-character literal drops trailing empty pieces;
- `contains` is substring search;
- `int` arithmetic wraps at 32 bits;
- `parseInt` and `parseLong` fail on overflow;
- `double` comparisons become exact cross-multiplied ratios; Java rounds long operands of 2^53
  and beyond, where the two can differ (see "## Left out").

JavaScript's `split` keeps empty pieces and `Math.round` rounds halves up; both are modelled
exactly. The external services become parameters of the model:
- the OCR engine, the PDF image detector and the language model's reply;
- the clock and the random UUIDs;
- the serialiser and the Redis store;
- the database, modelled as an in-memory list of offers and a map of documents.

The model follows the code in these cases:
- A PDF whose name and region match any active offer is merged into that offer, whatever the
  offer's source.
- A 600-character Hangul text is graded HIGH only if it also has at least five digits.
  Otherwise it is MEDIUM with the digits warning (`Vision.DenseKoreanWithoutDigitsIsMedium`).
- A 300-character text is LOW only when its Hangul ratio is under 0.1 and it has fewer than
  50 digits and ASCII letters.
- On a cache hit the stored score of whoever analysed the file first is reused for the new
  user; it is not recomputed.

## Model

| member | source | states |
|---|---|---|
| Eligibility.WithinBounds | backend/src/main/java/com/zipduck/domain/eligibility/EligibilityCalculator.java:106-135 | a value passes a two-sided check iff each present bound holds inclusively; an absent bound restricts nothing |
| Eligibility.WithinCap | backend/src/main/java/com/zipduck/domain/eligibility/EligibilityCalculator.java:137-143 | the owned-housing count passes iff the cap is absent or the count is at most the cap |
| Eligibility.IsEligible | backend/src/main/java/com/zipduck/domain/eligibility/EligibilityCalculator.java:19-42 | eligible iff the age, income, household and owned-housing checks all pass, so one failing check makes the offer ineligible |
| Eligibility.BoundsInclusive | backend/src/main/java/com/zipduck/domain/eligibility/EligibilityCalculator.java:106-143 | a value equal to min or max passes; min-1 and max+1 fail; the cap itself passes and cap+1 fails |
| Eligibility.NullBoundUnrestricted | backend/src/main/java/com/zipduck/domain/eligibility/EligibilityCalculator.java:106-143 | an absent bound behaves like a bound at the value itself, and with no bounds every value passes |
| Eligibility.AnyTokenContained | backend/src/main/java/com/zipduck/domain/eligibility/EligibilityCalculator.java:72-79 | the location matches iff some comma-separated preference token, trimmed, is a substring of it |
| Eligibility.MatchScore | backend/src/main/java/com/zipduck/domain/eligibility/EligibilityCalculator.java:48-87 | the score lies in 0..100; it is 0 exactly when the offer is ineligible and at least 70 otherwise; it is 100 exactly when no penalty applies |
| Eligibility.MatchScoreDecomposition | backend/src/main/java/com/zipduck/domain/eligibility/EligibilityCalculator.java:53-86 | for an eligible offer the score is 100 minus 5, 10 and 15 for the owned-housing, income-tail and location penalties that apply |
| Eligibility.MorePenaltiesNeverRaise | backend/src/main/java/com/zipduck/domain/eligibility/EligibilityCalculator.java:53-86 | between two eligible cases, when every penalty of the first also applies to the second, the second never scores higher |
| Eligibility.Details | backend/src/main/java/com/zipduck/domain/eligibility/EligibilityCalculator.java:92-104 | each per-check flag equals its check; overallEligible is their conjunction; matchScore is 0 iff not overall eligible and lies in 0..100; overallEligible and matchScore are exactly IsEligible and MatchScore of the same profile and subscription |
| Scorer.AgeScore | backend/src/main/java/com/zipduck/application/ai/EligibilityScorer.java:78-92 | 10 with no age bounds; otherwise 7 iff the age is within 5 of a present bound (when min+5 does not wrap), else 10 |
| Scorer.AgeThresholdWraps | backend/src/main/java/com/zipduck/application/ai/EligibilityScorer.java:84 | when min+5 overflows the 32-bit int, the comparison wraps and the age scores 10 although it sits at the bound |
| Scorer.IncomeScore | backend/src/main/java/com/zipduck/application/ai/EligibilityScorer.java:94-115 | 30 with no bounds, 25 with one; with both and min < max, 30 iff the position ratio is in [0.2,0.8] and 20 iff it is below 0.1 or above 0.9; a one-value range scores 20 at that value |
| Scorer.HouseholdScore | backend/src/main/java/com/zipduck/application/ai/EligibilityScorer.java:117-133 | 10 with no bounds, 8 with one; with both, 10 at the integer midpoint, 8 at distance 1, otherwise 6 |
| Scorer.HousingOwnedScore | backend/src/main/java/com/zipduck/application/ai/EligibilityScorer.java:135-155 | 20 with no cap; with cap 0, 20 for owning none and 0 for owning any; otherwise 20, 15 or 10 by the ratio thresholds 0.5 and 0.75 |
| Scorer.LocationScore | backend/src/main/java/com/zipduck/application/ai/EligibilityScorer.java:157-175 | 15 when the preferences or the location are missing or empty; otherwise 30 on a token match and 5 without one |
| Scorer.ReasonTier | backend/src/main/java/com/zipduck/application/ai/EligibilityScorer.java:182-190 | the reason tier is chosen by the thresholds 90, 75 and 60 |
| Scorer.ScoreReason | backend/src/main/java/com/zipduck/application/ai/EligibilityScorer.java:177-191 | the fixed ineligible text, or one of four texts by the 90/75/60 thresholds |
| Scorer.ReasonTierMonotone | backend/src/main/java/com/zipduck/application/ai/EligibilityScorer.java:182-190 | a higher overall score never gets a lower reason tier |
| Scorer.DetailedScore | backend/src/main/java/com/zipduck/application/ai/EligibilityScorer.java:26-76 | ineligible gives overall 0 and the fixed "자격 조건 미달" reason; eligible gives the sum of five axis scores, each within its maximum (10/30/10/20/30), and the matching reason; each eligible axis field is the axis scorer applied to the profile's field and the subscription's bounds (age, income, household, housing owned, location preferences against the listing location) |
| Scorer.EligibleScoreFloor | backend/src/main/java/com/zipduck/application/ai/EligibilityScorer.java:43-71 | an eligible offer scores at least 48 overall and at least 10 on owned housing |
| Scorer.ScorersAgreeOnZero | backend/src/main/java/com/zipduck/application/ai/EligibilityScorer.java:33-41 | the detailed score is 0 iff the simple match score is 0, that is iff the offer is ineligible |
| Scorer.ScorersDivergeWithoutPreferences | backend/src/main/java/com/zipduck/application/ai/EligibilityScorer.java:157-160 | with no bounds and no preferences the simple score is 100 while the detailed score is 85 |
| Subscriptions.ClassifyHousingType | backend/src/main/java/com/zipduck/application/async/PdfAnalysisTask.java:254-271 | APARTMENT iff the text names an apartment, then OFFICETEL, VILLA and TOWNHOUSE in order by containment, and ETC iff none is named |
| Subscriptions.ClassifyOwnName | backend/src/main/java/com/zipduck/domain/subscription/Subscription.java:89-105 | classifying a housing type's own Korean name gives back that type |
| Subscriptions.Build | backend/src/main/java/com/zipduck/domain/subscription/Subscription.java:67-84 | a built offer defaults to PUBLIC_DB, not merged, active |
| Subscriptions.MarkAsMerged | backend/src/main/java/com/zipduck/domain/subscription/Subscription.java:127-131 | merged, MERGED source and the document id are set; the registry id, listing, criteria and active flag are unchanged |
| Subscriptions.Deactivate | backend/src/main/java/com/zipduck/domain/subscription/Subscription.java:136-138 | only the active flag changes, to false |
| Subscriptions.ExpiryBoundary | backend/src/main/java/com/zipduck/domain/subscription/Subscription.java:143-145 | an offer is not expired on its end date and is expired the day after |
| Subscriptions.IsExpired | backend/src/main/java/com/zipduck/domain/subscription/Subscription.java:143-145 | an offer is expired iff today lies strictly after its last application day, the clock being a parameter |
| SubscriptionCommands.MergeWithPdfData | backend/src/main/java/com/zipduck/domain/subscription/SubscriptionCommandService.java:33-36 | the chosen offer becomes MERGED and linked to the document, with its criteria and listing kept; every other offer is unchanged |
| SubscriptionCommands.DueForExpiryIsExpired | backend/src/main/java/com/zipduck/domain/subscription/SubscriptionCommandService.java:42-50 | an offer is swept iff it is active and its end date is before today |
| SubscriptionCommands.Swept | backend/src/main/java/com/zipduck/domain/subscription/SubscriptionCommandService.java:46-49 | a due offer is deactivated and any other is left as it is; afterwards it is not due |
| SubscriptionCommands.DeactivateExpired | backend/src/main/java/com/zipduck/domain/subscription/SubscriptionCommandService.java:42-53 | each offer is swept in place; the returned count is the number of due offers; no due offer remains and the store stays valid |
| SubscriptionCommands.DueCountZero | backend/src/main/java/com/zipduck/domain/subscription/SubscriptionCommandService.java:51-52 | the sweep reports 0 iff no offer was due |
| SubscriptionQueries.Candidates | backend/src/main/java/com/zipduck/domain/subscription/SubscriptionQueryService.java:46-53 | only active offers of the chosen source are kept (every source when none is chosen), each one that qualifies is kept, nothing is invented, and table order is kept |
| SubscriptionQueries.EligibleOnly | backend/src/main/java/com/zipduck/domain/subscription/SubscriptionQueryService.java:56-58 | exactly the offers eligible for the profile are kept, with their multiplicity and in table order |
| SubscriptionQueries.InsertDescSorted | backend/src/main/java/com/zipduck/domain/subscription/SubscriptionQueryService.java:61-64 | inserting into a descending list by score keeps it descending |
| SubscriptionQueries.InsertDescStable | backend/src/main/java/com/zipduck/domain/subscription/SubscriptionQueryService.java:61-64 | insertion puts the new offer after the existing offers of equal score |
| SubscriptionQueries.SortDesc | backend/src/main/java/com/zipduck/domain/subscription/SubscriptionQueryService.java:61-64 | the sort is a permutation of its input |
| SubscriptionQueries.SortDescSorted | backend/src/main/java/com/zipduck/domain/subscription/SubscriptionQueryService.java:61-64 | the sorted list is non-increasing in match score |
| SubscriptionQueries.SortDescStable | backend/src/main/java/com/zipduck/domain/subscription/SubscriptionQueryService.java:61-64 | offers of equal score keep their original relative order, as the stable list sort does |
| SubscriptionQueries.Recommendations | backend/src/main/java/com/zipduck/domain/subscription/SubscriptionQueryService.java:45-67 | every recommended offer is active, of the chosen source and eligible; the result is a permutation of the filtered candidates |
| SubscriptionQueries.RecommendationsRanked | backend/src/main/java/com/zipduck/domain/subscription/SubscriptionQueryService.java:61-64 | recommendations are ordered by non-increasing match score |
| SubscriptionQueries.RecommendationsComplete | backend/src/main/java/com/zipduck/domain/subscription/SubscriptionQueryService.java:46-58 | every active, eligible offer of the chosen source is recommended |
| Vision.CountWhere | backend/src/main/java/com/zipduck/application/ai/VisionService.java:96-112 | a character count is at most the length, 0 iff no character qualifies, and the length iff all do |
| Vision.ClassCountsBounded | backend/src/main/java/com/zipduck/application/ai/VisionService.java:96-112 | Hangul, digits and ASCII letters are disjoint classes, so their counts sum to at most the length |
| Vision.AssessOcrQuality | backend/src/main/java/com/zipduck/application/ai/VisionService.java:62-94 | missing or blank text is LOW; under 100 characters is LOW; a Hangul ratio under 0.1 with under 50 digits and letters is LOW; then under 5 digits is MEDIUM; over 500 characters with Hangul ratio over 0.3 is HIGH with no warning; anything else is MEDIUM |
| Vision.DenseKoreanNeverLow | backend/src/main/java/com/zipduck/application/ai/VisionService.java:73-81 | a text over 500 characters whose Hangul ratio exceeds 0.3 is never graded LOW |
| Vision.HangulIsNotBlank | backend/src/main/java/com/zipduck/application/ai/VisionService.java:63-65 | a text holding any Hangul syllable is not blank |
| Vision.DenseKoreanWithoutDigitsIsMedium | backend/src/main/java/com/zipduck/application/ai/VisionService.java:84-86 | 600 Hangul syllables with no digit grade MEDIUM with the digits warning |
| Vision.DetectImageContent | backend/src/main/java/com/zipduck/application/ai/VisionService.java:24-33 | OCR is needed iff the detector says so or the detector fails |
| Vision.PerformOcr | backend/src/main/java/com/zipduck/application/ai/VisionService.java:40-56 | a failing engine fails with the prefixed message; no text or blank text gives the empty string; otherwise the text is passed through |
| Gemini.RunEnd | backend/src/main/java/com/zipduck/application/ai/GeminiService.java:152-171 | the end of a maximal run of characters from the class |
| Gemini.MatchAt | backend/src/main/java/com/zipduck/application/ai/GeminiService.java:152-171 | a match at a position is a quoted key followed by a non-empty quote-free string value or a non-empty run of digits |
| Gemini.FindFrom | backend/src/main/java/com/zipduck/application/ai/GeminiService.java:152-171 | the scan gives the leftmost match from a position, and nothing iff no position matches |
| Gemini.FindFromFirst | backend/src/main/java/com/zipduck/application/ai/GeminiService.java:152-171 | when a position matches and none before it does, the scan returns that match |
| Gemini.AbsentKeyYieldsNothing | backend/src/main/java/com/zipduck/application/ai/GeminiService.java:126-150 | a key that does not occur yields no value |
| Gemini.TextFieldRoundTrip | backend/src/main/java/com/zipduck/application/ai/GeminiService.java:152-157 | writing a non-empty quote-free value after its key and reading it back gives the value |
| Gemini.NumberFieldRoundTrip | backend/src/main/java/com/zipduck/application/ai/GeminiService.java:159-171 | writing a number in decimal after its key and reading the digits back gives its decimal string |
| Gemini.IntFieldRoundTrip | backend/src/main/java/com/zipduck/application/ai/GeminiService.java:159-164 | an int written after its key is parsed back to the same value |
| Gemini.RawNumber | backend/src/main/java/com/zipduck/application/ai/GeminiService.java:159-171 | a numeric field has a value iff the scan finds unsigned digits |
| Gemini.NumberField | backend/src/main/java/com/zipduck/application/ai/GeminiService.java:159-171 | parsing succeeds iff the digits fit the limit, and then yields the scanned value within the limit |
| Gemini.IntField | backend/src/main/java/com/zipduck/application/ai/GeminiService.java:159-164 | the int field fails exactly on overflow of the 32-bit range |
| Gemini.LongField | backend/src/main/java/com/zipduck/application/ai/GeminiService.java:166-171 | the long field fails exactly on overflow of the 64-bit range |
| Gemini.ParseJsonManually | backend/src/main/java/com/zipduck/application/ai/GeminiService.java:126-150 | parsing fails iff some numeric field overflows; otherwise each field is its own independent scan |
| Gemini.Unfence | backend/src/main/java/com/zipduck/application/ai/GeminiService.java:103-112 | removing the fences keeps a contiguous piece of the trimmed reply, with no blank character at either end |
| Gemini.StripFences | backend/src/main/java/com/zipduck/application/ai/GeminiService.java:102-113 | the stripped text is a contiguous piece of the reply, no longer than it, with no blank character at either end |
| Gemini.StripUnfenced | backend/src/main/java/com/zipduck/application/ai/GeminiService.java:102-113 | a reply whose trimmed text neither starts nor ends with "```" is only trimmed |
| Gemini.FenceThenJson | backend/src/main/java/com/zipduck/application/ai/GeminiService.java:103-108 | "```" followed by a body reads as a "```json" opening exactly when the body starts with "json" |
| Gemini.UnfenceJson | backend/src/main/java/com/zipduck/application/ai/GeminiService.java:103-112 | between "```json" and a closing "```", a body not starting with a backtick is kept, trimmed |
| Gemini.UnfenceBare | backend/src/main/java/com/zipduck/application/ai/GeminiService.java:106-112 | between "```" and a closing "```", a body starting with neither a backtick nor "json" is kept, trimmed |
| Gemini.StripFencedAny | backend/src/main/java/com/zipduck/application/ai/GeminiService.java:102-113 | a body between either opening fence and a closing fence, with only blank text outside them, strips to the trimmed body |
| Gemini.StripFencedBlock | backend/src/main/java/com/zipduck/application/ai/GeminiService.java:102-113 | a body between an opening json fence and a closing fence comes back exactly |
| Gemini.StripBareObject | backend/src/main/java/com/zipduck/application/ai/GeminiService.java:102-113 | a bare JSON object is left unchanged |
| Gemini.ParseGeminiResponse | backend/src/main/java/com/zipduck/application/ai/GeminiService.java:100-121 | the reply, stripped of its fences, parses iff its numbers fit; a failure carries the fixed parse message |
| Gemini.ExtractCriteria | backend/src/main/java/com/zipduck/application/ai/GeminiService.java:25-38 | a model failure or a parse failure surfaces as one error carrying the extraction prefix |
| PdfDocuments.KoreanName | backend/src/main/java/com/zipduck/domain/pdf/PdfDocument.java:59-74 | each status has its Korean display name |
| PdfDocuments.KoreanNamesDistinct | backend/src/main/java/com/zipduck/domain/pdf/PdfDocument.java:59-74 | different statuses have different display names |
| PdfDocuments.NewDocument | backend/src/main/java/com/zipduck/domain/pdf/PdfDocument.java:41-44 | a new document is PENDING with no error message and carries the given file facts and cache key |
| PdfDocuments.ApplyMark | backend/src/main/java/com/zipduck/domain/pdf/PdfDocument.java:79-104 | a mark sets only the status, plus the message for a failure; every other field is unchanged |
| PdfDocuments.TerminalStatusOverwritable | backend/src/main/java/com/zipduck/domain/pdf/PdfDocument.java:79-104 | with no guard, a COMPLETED or FAILED document can be marked PROCESSING again |
| PdfDocuments.CompletedAfterFailureKeepsMessage | backend/src/main/java/com/zipduck/domain/pdf/PdfDocument.java:93-103 | completing a failed document keeps its stale error message |
| PdfCommands.ByteHex | backend/src/main/java/com/zipduck/domain/pdf/PdfCommandService.java:88-94 | each byte becomes exactly two lowercase hex digits, zero-padded, whose value is the byte |
| PdfCommands.ToHexString | backend/src/main/java/com/zipduck/domain/pdf/PdfCommandService.java:89 | a byte value renders as lowercase hex with no leading zero: one digit exactly when it is below 16, otherwise two; decoding the digits (one digit, or high·16 + low) gives back the byte |
| PdfCommands.HexEncode | backend/src/main/java/com/zipduck/domain/pdf/PdfCommandService.java:86-95 | the hex string is twice as long as the hash and all lowercase hex |
| PdfCommands.HexRoundTrip | backend/src/main/java/com/zipduck/domain/pdf/PdfCommandService.java:86-95 | decoding the hex string gives back the hash bytes |
| PdfCommands.HexEncodeInjective | backend/src/main/java/com/zipduck/domain/pdf/PdfCommandService.java:86-95 | different hashes give different keys |
| PdfCommands.GenerateCacheKey | backend/src/main/java/com/zipduck/domain/pdf/PdfCommandService.java:80-100 | a digest gives its hex encoding (64 characters for SHA-256); a hashing failure falls back to the random UUID |
| PdfCommands.Extension | backend/src/main/java/com/zipduck/domain/pdf/PdfCommandService.java:49-52 | the stored extension is the text from the last dot, or empty when there is no name or no dot |
| PdfCommands.MarkById | backend/src/main/java/com/zipduck/domain/pdf/PdfCommandService.java:105-140 | a missing document fails with a message naming its id; otherwise the store is the same except that document becomes ApplyMark of the old one: same keys, same nextId, every other document unchanged |
| PdfCommands.MarkAsProcessing | backend/src/main/java/com/zipduck/domain/pdf/PdfCommandService.java:115-120 | succeeds iff the document exists; a missing one fails with the not-found message; otherwise only that document changes, to the old one with status PROCESSING |
| PdfCommands.MarkAsCompleted | backend/src/main/java/com/zipduck/domain/pdf/PdfCommandService.java:125-130 | succeeds iff the document exists; a missing one fails with the not-found message; otherwise only that document changes, to the old one with status COMPLETED |
| PdfCommands.MarkAsFailed | backend/src/main/java/com/zipduck/domain/pdf/PdfCommandService.java:135-140 | succeeds iff the document exists; a missing one fails with the not-found message; otherwise only that document changes, to the old one with status FAILED and the message as its error |
| PdfCommands.NotFoundNamesTheId | backend/src/main/java/com/zipduck/domain/pdf/PdfCommandService.java:117 | the not-found messages of different ids differ |
| PdfCommands.SaveUploadedFile | backend/src/main/java/com/zipduck/domain/pdf/PdfCommandService.java:41-74 | a failed write, a missing name or a missing content type refuses the upload; otherwise one PENDING document with the computed key is stored under the next id |
| PdfCache.StoreKey | backend/src/main/java/com/zipduck/infrastructure/cache/PdfCacheService.java:26 | the store key is "pdf:analysis:" followed by the fingerprint |
| PdfCache.StoreKeyInjective | backend/src/main/java/com/zipduck/infrastructure/cache/PdfCacheService.java:34-35 | different fingerprints use different store keys |
| PdfCache.Put | backend/src/main/java/com/zipduck/infrastructure/cache/PdfCacheService.java:33-42 | a serialisable value is stored with a 30-day expiry; a serialisation failure leaves the cache unchanged |
| PdfCache.Get | backend/src/main/java/com/zipduck/infrastructure/cache/PdfCacheService.java:48-64 | a missing or expired key is a miss; a live key gives whatever deserialising its text gives |
| PdfCache.IsCached | backend/src/main/java/com/zipduck/infrastructure/cache/PdfCacheService.java:69-72 | a fingerprint is cached iff its prefixed store key holds an entry that has not expired, whether or not the entry decodes |
| PdfCache.Invalidate | backend/src/main/java/com/zipduck/infrastructure/cache/PdfCacheService.java:77-81 | the key is removed and every other entry is kept |
| PdfCache.ExtendTtl | backend/src/main/java/com/zipduck/infrastructure/cache/PdfCacheService.java:87-91 | a live key's expiry is reset to 30 days from now with its value kept; nothing else changes |
| PdfCache.PutThenGet | backend/src/main/java/com/zipduck/infrastructure/cache/PdfCacheService.java:33-64 | a value that round-trips through the serialiser is read back within 30 days |
| PdfCache.PutExpires | backend/src/main/java/com/zipduck/infrastructure/cache/PdfCacheService.java:27 | after 30 days the stored value is a miss |
| PdfCache.PutIsolated | backend/src/main/java/com/zipduck/infrastructure/cache/PdfCacheService.java:33-64 | storing under one fingerprint does not change what another reads |
| PdfCache.UndecodableIsMiss | backend/src/main/java/com/zipduck/infrastructure/cache/PdfCacheService.java:60-63 | text that does not deserialise reads as a miss although the key is still cached |
| PdfCache.ExtendKeepsValue | backend/src/main/java/com/zipduck/infrastructure/cache/PdfCacheService.java:87-91 | after an extension the same value is read for another 30 days |
| PdfCache.PutIsCached | backend/src/main/java/com/zipduck/infrastructure/cache/PdfCacheService.java:33-42 | after a successful store the fingerprint is cached exactly until 30 days have passed |
| PdfCache.HitIsCached | backend/src/main/java/com/zipduck/infrastructure/cache/PdfCacheService.java:48-72 | every cache hit is also cached; a cached fingerprint misses only when its text does not deserialise |
| PdfCache.ExtendKeepsCached | backend/src/main/java/com/zipduck/infrastructure/cache/PdfCacheService.java:69-91 | extending a cached fingerprint keeps it cached for exactly 30 more days; extending an uncached one does not make it cached |
| PdfCache.InvalidateMisses | backend/src/main/java/com/zipduck/infrastructure/cache/PdfCacheService.java:77-81 | after invalidation the key is neither read nor cached |
| OfferStore.Insert | backend/src/main/java/com/zipduck/domain/subscription/SubscriptionCommandService.java:25-27 | an offer with all NOT NULL columns is appended under the next id; one without is refused, naming the missing column |
| OfferStore.Update | backend/src/main/java/com/zipduck/domain/subscription/SubscriptionCommandService.java:58-60 | the offer at the position is replaced and the store stays valid |
| OfferStore.WithPublicDataId | backend/src/main/java/com/zipduck/domain/subscription/SubscriptionQueryService.java:80-82 | exactly the positions of the offers with that registry id, in increasing order |
| Collector.FirstProvinceFrom | backend/src/main/java/com/zipduck/application/collector/PublicDataCollector.java:150-158 | the first province keyword, in the fixed order, that the address contains, or none |
| Collector.ExtractLocation | backend/src/main/java/com/zipduck/application/collector/PublicDataCollector.java:144-163 | a missing or empty address is "기타"; else the first province, in the fixed order, that the address contains; else "기타" for an address of spaces only, and otherwise the address up to its first space |
| Collector.FirstWordIsRegion | backend/src/main/java/com/zipduck/application/collector/PublicDataCollector.java:160-162 | an address naming no province and starting with a non-empty word followed by a space maps to that word |
| Collector.LeadingSpaceGivesEmptyRegion | backend/src/main/java/com/zipduck/application/collector/PublicDataCollector.java:160-162 | an address starting with a space and naming no province yields the empty region |
| Collector.ParseHousingType | backend/src/main/java/com/zipduck/application/collector/PublicDataCollector.java:168-185 | a missing type is ETC; otherwise the trimmed, upper-cased text is classified, with "APT" naming an apartment |
| Collector.LowerAptIsApartment | backend/src/main/java/com/zipduck/application/collector/PublicDataCollector.java:168-175 | "apt" is upper-cased first, so it reads as an apartment |
| Collector.ConvertToSubscription | backend/src/main/java/com/zipduck/application/collector/PublicDataCollector.java:99-129 | a registry offer has minAge 19, minHousehold 1, maxHousingOwned 0, PUBLIC_DB, active, the record's id; it can be stored iff the record has a name |
| Collector.ImportRecord | backend/src/main/java/com/zipduck/application/collector/PublicDataCollector.java:50-70 | an unknown id with dates and a name is created; a known id is updated; anything else is skipped and leaves the store as it was |
| Collector.KnownIdUpdates | backend/src/main/java/com/zipduck/application/collector/PublicDataCollector.java:54-58 | a record whose id is stored once updates that offer and creates nothing |
| Collector.CollectPublicData | backend/src/main/java/com/zipduck/application/collector/PublicDataCollector.java:35-77 | created + updated + skipped equals the feed size; new rows are appended registry rows; a failed fetch changes nothing |
| PdfAnalysis.TruncateText | backend/src/main/java/com/zipduck/application/async/PdfAnalysisTask.java:245 | the stored text is a prefix of the input of at most 10000 characters, the whole input when it fits |
| PdfAnalysis.ParseHousingType | backend/src/main/java/com/zipduck/application/async/PdfAnalysisTask.java:254-271 | a missing type is ETC; otherwise the trimmed text is classified without case folding or alias |
| PdfAnalysis.ParsersDisagreeOnApt | backend/src/main/java/com/zipduck/application/async/PdfAnalysisTask.java:254-271 | "APT" is ETC for the document pipeline but APARTMENT for the collector |
| PdfAnalysis.ApplicationEndDate | backend/src/main/java/com/zipduck/application/async/PdfAnalysisTask.java:276-288 | a parsable period gives its date; a missing or unparsable one gives the date a month ahead |
| PdfAnalysis.BuildSubscription | backend/src/main/java/com/zipduck/application/async/PdfAnalysisTask.java:156-180 | the temporary offer carries the extracted name, region, type and bounds, starts today and is a PDF_UPLOAD offer |
| PdfAnalysis.FindDuplicateFrom | backend/src/main/java/com/zipduck/application/async/PdfAnalysisTask.java:185-197 | the first offer from a position that is a duplicate, or none when no later offer is one |
| PdfAnalysis.FindDuplicate | backend/src/main/java/com/zipduck/application/async/PdfAnalysisTask.java:185-197 | a missing name or region finds none; otherwise the first active offer whose name contains the name and whose region equals it |
| PdfAnalysis.ExtractText | backend/src/main/java/com/zipduck/application/async/PdfAnalysisTask.java:73-84 | OCR runs iff detection asks for it; an OCR failure is the failure; a text document gives the empty text |
| PdfAnalysis.Grade | backend/src/main/java/com/zipduck/application/async/PdfAnalysisTask.java:86-93 | without OCR the grade is HIGH with no warning; with OCR it is the assessed grade |
| PdfAnalysis.ScoreAgainst | backend/src/main/java/com/zipduck/application/async/PdfAnalysisTask.java:99-107 | no profile gives not eligible and 0; a profile gives the calculator's verdict and score |
| PdfAnalysis.Prepare | backend/src/main/java/com/zipduck/application/async/PdfAnalysisTask.java:73-107 | the text, grade, criteria and score in the pipeline's order; the first failure is the one reported |
| PdfAnalysis.RecordOffer | backend/src/main/java/com/zipduck/application/async/PdfAnalysisTask.java:109-120 | a duplicate is merged with the document id and nothing is created; otherwise exactly one PDF_UPLOAD offer is appended or the insert fails |
| PdfAnalysis.BuildResult | backend/src/main/java/com/zipduck/application/async/PdfAnalysisTask.java:213-249 | the result names the document, criteria, score, grade name, warning and model, with the truncated text and the processing time cast to int |
| PdfAnalysis.Analyze | backend/src/main/java/com/zipduck/application/async/PdfAnalysisTask.java:49-142 | a missing document escapes with the store untouched; otherwise PROCESSING is marked first and then COMPLETED with one new result, or FAILED with the message and only the document changed; a completion from a cache hit extends that entry, and a fresh completion caches its new result under the document's fingerprint |
| PdfAnalysis.CacheHitSkipsExtraction | backend/src/main/java/com/zipduck/application/async/PdfAnalysisTask.java:59-71 | a cache hit saves the cached result for this document, completes it, extends that entry for another 30 days and touches no offer, whatever the detector, OCR client and language model would have done |
| PdfAnalysis.FreshResultReadBack | backend/src/main/java/com/zipduck/application/async/PdfAnalysisTask.java:59-133 | on a miss, a completed run's new result is read back from the cache for the next 30 days when the serialiser round-trips it |
| PdfAnalysis.OcrFailureIsRecorded | backend/src/main/java/com/zipduck/application/async/PdfAnalysisTask.java:138-141 | an OCR failure ends as FAILED with the OCR message, and nothing propagates |
| PdfAnalysis.ModelFailureIsRecorded | backend/src/main/java/com/zipduck/application/async/PdfAnalysisTask.java:138-141 | a model failure ends as FAILED with the extraction message |
| PdfAnalysis.MergeOrCreate | backend/src/main/java/com/zipduck/application/async/PdfAnalysisTask.java:109-120 | on completion either the duplicate was merged and the offer count is unchanged, or exactly one offer was added |
| PdfAnalysis.TextDocumentResult | backend/src/main/java/com/zipduck/application/async/PdfAnalysisTask.java:86-107 | a text document analysed without a profile that completes stores HIGH, no warning, an empty text, not eligible and score 0 |
| PdfAnalysis.StoredTextBounded | backend/src/main/java/com/zipduck/application/async/PdfAnalysisTask.java:245 | the stored text of a completed analysis is a prefix of at most 10000 characters |
| PdfController.TooLargeMessageSaysTen | backend/src/main/java/com/zipduck/api/controller/PdfController.java:75-78 | the size message names a 10MB limit |
| PdfController.Validate | backend/src/main/java/com/zipduck/api/controller/PdfController.java:70-85 | an empty file is FILE_EMPTY, then over 10 MiB is FILE_TOO_LARGE, then a missing or unlisted content type is INVALID_FILE_FORMAT; the file passes iff none applies |
| PdfController.AllowedType | backend/src/main/java/com/zipduck/api/controller/PdfController.java:46-52 | a content type is allowed iff it is present and, lower-cased, one of application/pdf, image/jpeg, image/jpg and image/png |
| PdfController.UploadPdf | backend/src/main/java/com/zipduck/api/controller/PdfController.java:62-106 | validation first, then an unknown user fails, then a failed write is FILE_UPLOAD_FAILED; success stores one PENDING document and schedules analysis with the user's profile |
| PdfController.ValidationComesFirst | backend/src/main/java/com/zipduck/api/controller/PdfController.java:70-95 | a file that fails validation is refused the same way whatever the user or the disk |
| PdfController.SizeLimitInclusive | backend/src/main/java/com/zipduck/api/controller/PdfController.java:47 | exactly 10 MiB passes the size check; one byte more does not |
| PdfController.UpperCaseTypeAccepted | backend/src/main/java/com/zipduck/api/controller/PdfController.java:48-53 | the content type is compared in lower case; an unlisted or missing type is refused |
| Comparison.BestIndex | backend/src/main/java/com/zipduck/api/dto/response/ComparisonResponse.java:72-78 | among offers with details, the first with the highest score, or none iff no offer has details |
| Comparison.BuildSummary | backend/src/main/java/com/zipduck/api/dto/response/ComparisonResponse.java:47-87 | an empty list gives all fields null; otherwise the lowest minimum price, the highest maximum price and the high and low scores (offers without details counted as 0) are attained and bound every offer; a best match exists iff some offer has details |
| Comparison.Of | backend/src/main/java/com/zipduck/api/dto/response/ComparisonResponse.java:37-45 | the response carries the list as given, its size as totalCount, and its summary |
| Comparison.BestMatchHasHighestScore | backend/src/main/java/com/zipduck/api/dto/response/ComparisonResponse.java:62-78 | with scores in 0..100, the best match's score is the highest score |
| Comparison.NoDetailsNoBestMatch | backend/src/main/java/com/zipduck/api/dto/response/ComparisonResponse.java:62-78 | with no details at all there is no best match and both score columns read 0 |
| LoginLock.Blank | backend/src/main/java/com/zipduck/domain/auth/LoginAttempt.java:24-25 | the builder default has count 0 and is unlocked |
| LoginLock.Increment | backend/src/main/java/com/zipduck/domain/auth/LoginAttempt.java:32-35 | a failure adds exactly 1 and records its time; at the int maximum the count wraps |
| LoginLock.Reset | backend/src/main/java/com/zipduck/domain/auth/LoginAttempt.java:47-50 | reset gives count 0, no time, unlocked |
| LoginLock.CreateNew | backend/src/main/java/com/zipduck/domain/auth/LoginAttempt.java:55-61 | a first failure's record has count 1 and is unlocked |
| LoginLock.LockThreshold | backend/src/main/java/com/zipduck/domain/auth/LoginAttempt.java:40-42 | four counted failures do not lock; the fifth does |
| LoginLock.IsLocked | backend/src/main/java/com/zipduck/domain/auth/LoginAttempt.java:40-42 | a record is locked iff its count has reached 5; LoginLock.LockThreshold and LoginLock.IncrementKeepsLock state its consequences |
| LoginLock.LoginRefused | backend/src/main/java/com/zipduck/domain/auth/AuthenticationService.java:87-94 | the login is refused before the password check iff a record is stored and it is locked; a missing record never refuses |
| LoginLock.IncrementKeepsLock | backend/src/main/java/com/zipduck/domain/auth/LoginAttempt.java:32-42 | a further failure never unlocks, short of wrap-around |
| LoginLock.WrapUnlocks | backend/src/main/java/com/zipduck/domain/auth/LoginAttempt.java:33 | the counter wrapping past the int maximum reads as unlocked |
| LoginLock.RecordFailureAsWritten | backend/src/main/java/com/zipduck/domain/auth/AuthenticationService.java:156-167 | as written, an address with no record gets count 2 on its first failure |
| LoginLock.AsWrittenCountsOneExtra | backend/src/main/java/com/zipduck/domain/auth/AuthenticationService.java:156-167 | as written, after n failures the count is n + 1 |
| LoginLock.AsWrittenLocksAfterFour | backend/src/main/java/com/zipduck/domain/auth/AuthenticationService.java:87-93 | as written, three failures do not refuse the next login but four do |
| LoginLock.RecordFailure | backend/src/main/java/com/zipduck/domain/auth/AuthenticationService.java:156-167 | the intended counting: a first failure is createNew (count 1), and every later one increments |
| LoginLock.FailuresCounted | backend/src/main/java/com/zipduck/domain/auth/AuthenticationService.java:156-167 | with the intended counting, after n failures the count is n |
| LoginLock.RefusedFromFifthFailure | backend/src/main/java/com/zipduck/domain/auth/AuthenticationService.java:87-93 | with the intended counting, the login is refused iff at least five failures were recorded |
| Notifications.ShouldSendNotification | backend/src/main/java/com/zipduck/domain/notification/NotificationSetting.java:48-66 | send iff the channel's switch and the type's switch are on; channels and types without a switch are always on |
| Notifications.UpdateSettings | backend/src/main/java/com/zipduck/domain/notification/NotificationSetting.java:71-85 | each switch takes its argument when given and keeps its value when null |
| Notifications.UpdateIdempotent | backend/src/main/java/com/zipduck/domain/notification/NotificationSetting.java:71-85 | an all-null update changes nothing, and repeating an update changes nothing more |
| Notifications.DisablingChannelSilencesIt | backend/src/main/java/com/zipduck/domain/notification/NotificationSetting.java:50-55 | turning e-mail or push off stops every notification on it and leaves the other channels' decisions alone |
| Notifications.CreateDefault | backend/src/main/java/com/zipduck/domain/notification/NotificationSetting.java:90-98 | the defaults send every type by e-mail and none by push |
| Notifications.NewNotification | backend/src/main/java/com/zipduck/domain/notification/Notification.java:53-54 | a new notification is PENDING, unsent and not retryable |
| Notifications.MarkAsSent | backend/src/main/java/com/zipduck/domain/notification/Notification.java:65-69 | SENT at the given time with the reason cleared; the message is unchanged |
| Notifications.MarkAsFailed | backend/src/main/java/com/zipduck/domain/notification/Notification.java:74-77 | FAILED with the given reason; the sending time and the message are unchanged |
| Notifications.PrepareForRetry | backend/src/main/java/com/zipduck/domain/notification/Notification.java:82-94 | a FAILED notification goes back to PENDING with no reason; any other is unchanged; the result is never retryable |
| Notifications.CanRetry | backend/src/main/java/com/zipduck/domain/notification/Notification.java:82-84 | a notification can be retried iff its status is FAILED; Notifications.PrepareForRetry and Notifications.SentIsFinal relate it to the transitions |
| Notifications.RetryCycle | backend/src/main/java/com/zipduck/domain/notification/Notification.java:74-94 | a failure can be retried, and preparing it gives a PENDING notification with the same message that preparing again leaves alone |
| Notifications.SentIsFinal | backend/src/main/java/com/zipduck/domain/notification/Notification.java:65-94 | a sent notification is not retryable and preparing it changes nothing |
| EligibilityView.InCategory | frontend/src/api/eligibility.ts:211-229 | the requirements of one category, each of that category, with every such requirement included (order and repeats through EligibilityView.InCategoryAppend) |
| EligibilityView.RoundedPercent | frontend/src/api/eligibility.ts:232-234 | the group score is met/total·100 rounded half up, in 0..100, and 0 for an empty group |
| EligibilityView.RoundedPercentEnds | frontend/src/api/eligibility.ts:232-234 | all met scores 100 and none met scores 0 |
| EligibilityView.InCategoryAppend | frontend/src/api/eligibility.ts:211-229 | filtering a concatenation equals concatenating the filtered parts, so the filter keeps order and repeats |
| EligibilityView.InCategoryOne | frontend/src/api/eligibility.ts:211-229 | a single requirement is kept exactly when its category is the one asked for |
| EligibilityView.MakeGroup | frontend/src/api/eligibility.ts:211-234 | a group carries its category's label, its requirements, metCount ≤ totalCount and a score in 0..100 that is RoundedPercent(metCount, totalCount) |
| EligibilityView.PresentCategories | frontend/src/api/eligibility.ts:211-229 | exactly the categories of the order that some requirement has |
| EligibilityView.GroupRequirementsByCategory | frontend/src/api/eligibility.ts:196-250 | one non-empty group per category present, covering every met and failed requirement, ordered by the fixed category order |
| EligibilityView.PresentSorted | frontend/src/api/eligibility.ts:236-249 | keeping only the present categories of a rank-sorted order leaves them rank-sorted |
| EligibilityView.OrderSortedByRank | frontend/src/api/eligibility.ts:238-247 | the fixed order lists INCOME, HOUSING, SUBSCRIPTION, REGION, AGE, HOUSEHOLD, ASSET, SPECIAL by increasing rank |
| EligibilityView.GroupTotalsSum | frontend/src/api/eligibility.ts:199-229 | the group totals sum to the number of met plus failed requirements |
| EligibilityView.CategoryCountsSum | frontend/src/api/eligibility.ts:213-229 | every requirement falls in exactly one of the eight categories |
| EligibilityView.BandOf | frontend/src/api/eligibility.ts:253-268 | the five bands are 90 and up, 70–89, 50–69, 30–49 and below 30 |
| EligibilityView.BandMonotone | frontend/src/api/eligibility.ts:253-268 | a higher score never lands in a lower band |
| EligibilityView.MatchScoreColor | frontend/src/api/eligibility.ts:253-259 | green, blue, yellow, orange and red for the five bands, each iff the score is in its band |
| EligibilityView.MatchScoreLabel | frontend/src/api/eligibility.ts:262-268 | 최상, 상, 중, 하 and 미달 for the five bands, each iff the score is in its band |
| EligibilityView.ColourAndLabelAgree | frontend/src/api/eligibility.ts:253-268 | the colour and the label always name the same band |
| ComparisonList.GetComparisonItems | frontend/src/services/favoritesService.ts:251-258 | the stored list, or the empty list when the key is missing or does not parse |
| ComparisonList.SetComparisonItems | frontend/src/services/favoritesService.ts:261-263 | at most the first four ids are stored, and a list of four or fewer is stored as given and a longer one as exactly its first four ids |
| ComparisonList.AddToComparison | frontend/src/services/favoritesService.ts:266-276 | refused, with nothing written, iff four ids are already listed; a listed id is accepted without a write; otherwise the id is appended; at most four distinct ids are kept |
| ComparisonList.Without | frontend/src/services/favoritesService.ts:281 | the filter keeps exactly the other ids, and leaves a list without the id unchanged |
| ComparisonList.WithoutAppend | frontend/src/services/favoritesService.ts:281 | filtering distributes over concatenation |
| ComparisonList.RemoveFromComparison | frontend/src/services/favoritesService.ts:279-282 | the id is no longer listed; the other ids keep their order; a well-formed list stays well-formed |
| ComparisonList.ClearComparison | frontend/src/services/favoritesService.ts:285-287 | after clearing the list reads empty |
| ComparisonList.RemoveKeepsOthers | frontend/src/services/favoritesService.ts:279-292 | after a removal the removed id is not in comparison, and every other id is in comparison iff it was before |
| ComparisonList.IsInComparison | frontend/src/services/favoritesService.ts:290-292 | an id is in comparison iff it occurs in the stored list as read back; ComparisonList.AddThenRemove and ComparisonList.RemoveKeepsOthers state how adding and removing change it |
| ComparisonList.AddThenRemove | frontend/src/services/favoritesService.ts:266-282 | adding an unlisted id to a list with room and then removing it restores the list |
| ComparisonList.SecondAdd | frontend/src/services/favoritesService.ts:266-276 | a second add of the same id writes nothing; it is accepted while the list has room and refused once it is full, although the id is listed |
| ComparisonList.ReplayWellFormed | frontend/src/services/favoritesService.ts:247-287 | any run of adds, removes and clears from a well-formed list keeps at most four distinct ids |
| PdfUpload.TooLargeSaysTen | frontend/src/hooks/usePdfUpload.ts:39-44 | the size message names a 10MB limit |
| PdfUpload.LastPieceIsSuffix | frontend/src/hooks/usePdfUpload.ts:27 | the text `pop` takes from the split is the longest dot-free suffix of the name |
| PdfUpload.LastPieceAfter | frontend/src/hooks/usePdfUpload.ts:27 | the last piece is whatever follows the final dot |
| PdfUpload.ExtensionAfterDot | frontend/src/hooks/usePdfUpload.ts:27 | the extension of a name is a dot followed by the lower-cased text after its final dot |
| PdfUpload.DotlessExtension | frontend/src/hooks/usePdfUpload.ts:27 | a name with no dot splits into itself, so its extension is a dot followed by the whole name lower-cased |
| PdfUpload.Extension | frontend/src/hooks/usePdfUpload.ts:27 | the extension is a dot followed by the lower-cased last piece of the name split at dots, one character longer than that piece; a name with no dot gives a dot and the whole name lower-cased (PdfUpload.DotlessExtension) |
| PdfUpload.ValidateFile | frontend/src/hooks/usePdfUpload.ts:23-57 | INVALID_TYPE unless the MIME type or the lower-cased extension names a PDF, then TOO_LARGE over 10 MiB, then EMPTY for size 0; valid iff there is no error |
| PdfUpload.SelectFile | frontend/src/hooks/usePdfUpload.ts:60-78 | no file clears the selection and the result; a file is selected iff valid, and its result is kept either way |
| PdfUpload.ExtensionOfMixedCase | frontend/src/hooks/usePdfUpload.ts:27 | "report.PDF" has the extension ".pdf" |
| PdfUpload.ExtensionOfDoubleSuffix | frontend/src/hooks/usePdfUpload.ts:27 | only the text after the last dot counts: "archive.pdf.zip" has ".zip" |
| PdfUpload.DotlessNameIsItsOwnExtension | frontend/src/hooks/usePdfUpload.ts:27-31 | a file named just "pdf" has the extension ".pdf" and passes the type check |
| PdfUpload.AtMostOneSizeError | frontend/src/hooks/usePdfUpload.ts:39-51 | TOO_LARGE and EMPTY never occur together |
| PdfUpload.ClientPdfPassesServer | frontend/src/hooks/usePdfUpload.ts:23-57 | a file the client accepts with the PDF type also passes the server's checks |
| PdfUpload.NamedPdfRefusedByServer | frontend/src/hooks/usePdfUpload.ts:28-31 | a file named "a.pdf" of a non-PDF type passes the client and the server refuses it as INVALID_FILE_FORMAT |
| PdfUpload.PngRefusedByClient | frontend/src/hooks/usePdfUpload.ts:28-36 | a PNG image passes the server and the client refuses it with INVALID_TYPE only |
| JavaStrings.Trim | backend/src/main/java/com/zipduck/domain/eligibility/EligibilityCalculator.java:75 | the result is the slice of the text left after removing characters up to U+0020 from both ends: everything cut is such a character, and the slice has none at either end |
| JavaStrings.TrimAround | backend/src/main/java/com/zipduck/domain/eligibility/EligibilityCalculator.java:75 | blank characters around a text whose ends are not blank are exactly what trimming removes |
| JavaStrings.TrimIsSlice | backend/src/main/java/com/zipduck/domain/eligibility/EligibilityCalculator.java:75 | the trimmed text is a contiguous piece of the input |
| JavaStrings.Split | backend/src/main/java/com/zipduck/domain/eligibility/EligibilityCalculator.java:72 | the split is the pieces between separators minus the trailing empty ones: every dropped piece is empty and, when a separator occurs, the last piece kept is non-empty; without a separator it is the whole text |
| JavaStrings.FirstPieceMaximal | backend/src/main/java/com/zipduck/application/collector/PublicDataCollector.java:160-161 | the first piece is the prefix of the text up to the first separator, or the whole text when there is none |
| JavaStrings.PiecesAllEmpty | backend/src/main/java/com/zipduck/application/collector/PublicDataCollector.java:160-161 | every piece is empty exactly when every character is the separator |
| JavaStrings.SplitFirstPiece | backend/src/main/java/com/zipduck/application/collector/PublicDataCollector.java:160-162 | the split is empty exactly for a non-empty text made only of separators; otherwise its first element is the first piece |
| JavaStrings.JoinPieces | backend/src/main/java/com/zipduck/domain/eligibility/EligibilityCalculator.java:72 | gluing the pieces back with the separator gives the original text |
| JavaStrings.ContainsIff | backend/src/main/java/com/zipduck/domain/eligibility/EligibilityCalculator.java:75 | `contains` holds iff the token occurs at some position |
| JavaNumbers.Wrap32 | backend/src/main/java/com/zipduck/application/ai/EligibilityScorer.java:84 | an in-range value is kept and any other is reduced modulo 2^32 into the int range |
| JavaNumbers.DecimalStringRoundTrip | backend/src/main/java/com/zipduck/application/async/PdfAnalysisTask.java:115 | the decimal string of an id reads back as the id |
| JavaNumbers.DecimalStringInjective | backend/src/main/java/com/zipduck/application/async/PdfAnalysisTask.java:115 | different ids have different decimal strings |

## Left out

- Eligibility.MatchScore: the income-tail test is exact arithmetic. Java compares `long` values
  with `range * 0.1` in doubles, which can differ once the operands reach 2^53. With
  minIncome 0, maxIncome 90071992547409930 and income 9007199254740993, Java applies the
  10-point income penalty and the model does not.
- Scorer.IncomeScore: the position ratio is compared exactly. Java divides two `long` values
  converted to double, which can differ once the operands reach 2^53. With minIncome
  0, maxIncome 50000000000000000 and income 9999999999999999, Java computes the ratio 0.2 and
  scores 30, while the exact ratio is below 0.2 and the model scores 25.
- Scorer.AgeScore: the characterisation is stated only when min+5 does not overflow. The
  wrapped case is exhibited by Scorer.AgeThresholdWraps.
- Scorer.HouseholdScore: the midpoint characterisation is stated only when min+max does not
  overflow the int range.
- Vision.AssessOcrQuality: `Character.isDigit` is modelled as the ASCII digits. The source also
  counts other Unicode decimal digits. Lengths count UTF-16 units as characters, which is exact
  only for text in the Basic Multilingual Plane.
- EligibilityView.RoundedPercent: the rounding is exact rational round-half-up. Floating-point
  rounding of `met / total * 100` at exact halves is not modelled.
- PdfUpload.ValidateFile: `toLowerCase` is modelled on ASCII letters. No non-ASCII letter
  lower-cases to "p", "d" or "f", so the comparison with ".pdf" is unaffected.
- PdfUpload.ClientPdfPassesServer: assumes the browser sends the file's own type as the part's
  content type.
- Collector.ParseHousingType: `toUpperCase` is modelled on ASCII letters only. Java applies the
  full Unicode case mappings, which can turn non-ASCII text into text containing "APT" or a
  Korean type name: "apẗ" (U+1E97) upper-cases to "APT" followed by U+0308, which Java reads
  as an apartment and the model reads as ETC.
- PdfAnalysis.TruncateText: the 10000-character limit counts code points, while Java's
  `length()` and `substring` count UTF-16 units. For text outside the Basic Multilingual Plane
  Java keeps fewer characters and can split a surrogate pair, while the model can keep up to
  20000 UTF-16 units. PdfAnalysis.BuildResult and PdfAnalysis.StoredTextBounded state their
  "at most 10000 characters" in the same unit.
- SubscriptionQueries.Candidates: `findByIsActiveTrue` and `findByIsActiveTrueAndDataSource`
  have no ORDER BY, so the database may return rows in any order. The model fixes table
  order. That order decides which of equally scored recommendations comes first and, through
  PdfAnalysis.FindDuplicate's `findFirst`, which of several duplicates is merged.
- Collector.CollectPublicData: states the totals and the appended rows, not which records were
  updated. Updates are not modelled beyond Collector.ImportRecord's outcome.
- PdfAnalysis.Analyze: a persistence failure is modelled as the store's missing-column
  refusal. The JPA exception's message text is not modelled.
- Login flows other than the lock check and the failure counter: token issuing, password
  checks and the audit log.
- ComparisonList.GetComparisonItems: stored JSON that parses to something other than an
  array of strings (for example `null`) is not modelled; it could only come from another writer.
- The 30-minute expiry of a login record (`timeToLive = 1800`) is the constant
  LoginLock.ATTEMPT_TTL_SECONDS. Redis eviction itself is not modelled.
- The prompt built for the language model, the HTTP calls, the PDF text extraction library and
  the OCR engine: these are external I/O and become parameters.
- A null reply body from the language model, and Redis connection failures: only the failures
  the code catches are modelled.
- Column lengths (for example 2000 for the error message): the database would reject longer
  values. Only the 10000-character truncation the code applies is modelled.
- Concurrency: the asynchronous task, transactions, and two uploads of the same file racing.
  The model is sequential.
- Re-attaching a cached result that already belongs to another document (a JPA identity
  question) is not modelled. A cache hit stores a copy for the new document.
- A trailing slash or a relative path in the configured upload directory: paths are
  joined as strings.
- Comparison prices are NOT NULL columns, so the summary has no null-price path.
- Locale-sensitive case conversion (for example the Turkish dotted i).
- Java's `String.split` with a regular expression other than a one-character literal.

## Findings

| source | as written | input that shows it | evidently intended | confidence | as-written member | corrected member |
|---|---|---|---|---|---|---|
| backend/src/main/java/com/zipduck/domain/auth/AuthenticationService.java:156-167 | a missing record is replaced by `createNew` (count 1) before the zero test, so it is incremented as well, and the first failure stores count 2 | four wrong passwords for an address with no login record: the count reaches 5 and the fifth attempt is refused | the first failure counts 1, so the lock engages after five failures as the lock message says | high; not executed | LoginLock.RecordFailureAsWritten, LoginLock.AsWrittenLocksAfterFour | LoginLock.RecordFailure, LoginLock.RefusedFromFifthFailure |
