/**
 * The AI extraction step: the language-model reply is stripped of Markdown
 * fences and each criterion is scanned out of it with its own pattern.
 */
module Gemini {
  import opened Wrappers
  import opened JavaNumbers
  import opened JavaStrings

  /** Regex `\s`: space, tab, line feed, vertical tab, form feed, carriage return. */
  predicate IsSpace(c: char) {
    c == ' ' || c == '\t' || c == '\n' || c as int == 0x0B || c as int == 0x0C || c == '\r'
  }

  /** Regex `\d`: an ASCII digit. */
  predicate IsDigit(c: char) {
    '0' <= c <= '9'
  }

  predicate NotQuote(c: char) {
    c != '"'
  }

  /** The end of the longest run of `p`-characters starting at `i` (a greedy `p*`). */
  function RunEnd(s: string, i: nat, p: char -> bool): (e: nat)
    requires i <= |s|
    ensures i <= e <= |s|
    ensures forall k :: i <= k < e ==> p(s[k])
    ensures e == |s| || !p(s[e])
    decreases |s| - i
  {
    if i < |s| && p(s[i]) then RunEnd(s, i + 1, p) else i
  }

  /** A run is determined by where it stops. */
  lemma {:induction false} RunEndAt(s: string, i: nat, e: nat, p: char -> bool)
    requires i <= e <= |s|
    requires forall k :: i <= k < e ==> p(s[k])
    requires e == |s| || !p(s[e])
    ensures RunEnd(s, i, p) == e
    decreases e - i
  {
    if i < e {
      RunEndAt(s, i + 1, e, p);
    }
  }

  /** What a field's pattern captures: a quoted text or a run of digits. */
  datatype ValueKind = Text | Digits

  function QuotedKey(key: string): string {
    ['"'] + key + ['"']
  }

  /** Where the value begins when `"key"`, optional spaces, a colon and optional spaces match at `i`. */
  function ValueStart(s: string, key: string, i: nat): (v: Option<nat>)
    ensures v.Some? ==> i + |key| + 3 <= v.value <= |s|
  {
    if !OccursAt(s, QuotedKey(key), i) then None
    else
      var j := RunEnd(s, i + |key| + 2, IsSpace);
      if j < |s| && s[j] == ':' then Some(RunEnd(s, j + 1, IsSpace)) else None
  }

  /**
   * The captured group when the field pattern matches starting at `i`: for a
   * text, `"key"\s*:\s*"([^"]+)"`, a non-empty quote-free run closed by a
   * quote; for a number, `"key"\s*:\s*(\d+)`, the whole digit run.
   */
  function MatchAt(s: string, key: string, i: nat, kind: ValueKind): (g: Option<string>)
    ensures g.Some? ==> |g.value| > 0 && OccursAt(s, QuotedKey(key), i)
    ensures g.Some? && kind == Text ==> forall k :: 0 <= k < |g.value| ==> NotQuote(g.value[k])
    ensures g.Some? && kind == Digits ==> forall k :: 0 <= k < |g.value| ==> IsDigit(g.value[k])
  {
    match ValueStart(s, key, i)
    case None => None
    case Some(v) =>
      match kind
      case Digits =>
        var e := RunEnd(s, v, IsDigit);
        if e > v then Some(s[v..e]) else None
      case Text =>
        if v < |s| && s[v] == '"' then
          var e := RunEnd(s, v + 1, NotQuote);
          if e > v + 1 && e < |s| then Some(s[v + 1..e]) else None
        else None
  }

  /** No match starts anywhere in `[lo, hi)`. */
  predicate NoMatchBetween(s: string, key: string, kind: ValueKind, lo: nat, hi: nat) {
    forall k :: lo <= k < hi ==> MatchAt(s, key, k, kind).None?
  }

  /** `Matcher.find()` from `i`: the group of the leftmost match starting at or after `i`. */
  function FindFrom(s: string, key: string, kind: ValueKind, i: nat): (g: Option<string>)
    ensures g.None? <==> NoMatchBetween(s, key, kind, i, |s| + 1)
    ensures g.Some? ==> exists j :: i <= j <= |s| && g == MatchAt(s, key, j, kind) && NoMatchBetween(s, key, kind, i, j)
    decreases |s| + 1 - i
  {
    if i > |s| then None
    else if MatchAt(s, key, i, kind).Some? then MatchAt(s, key, i, kind)
    else FindFrom(s, key, kind, i + 1)
  }

  function Find(s: string, key: string, kind: ValueKind): (g: Option<string>)
    ensures g.None? <==> NoMatchBetween(s, key, kind, 0, |s| + 1)
  {
    FindFrom(s, key, kind, 0)
  }

  /** The leftmost match wins. */
  lemma {:induction false} FindFromFirst(s: string, key: string, kind: ValueKind, i: nat, j: nat)
    requires i <= j <= |s|
    requires MatchAt(s, key, j, kind).Some?
    requires NoMatchBetween(s, key, kind, i, j)
    ensures FindFrom(s, key, kind, i) == MatchAt(s, key, j, kind)
    decreases j - i
  {
    if i < j {
      assert MatchAt(s, key, i, kind).None?;
      FindFromFirst(s, key, kind, i + 1, j);
    }
  }

  /** A key that never appears quoted yields no value, whatever else the reply holds. */
  lemma AbsentKeyYieldsNothing(s: string, key: string, kind: ValueKind)
    requires !Contains(s, QuotedKey(key))
    ensures Find(s, key, kind) == None
  {
    ContainsIff(s, QuotedKey(key));
  }

  /** No match can start before the first quote. */
  lemma QuoteFreePrefixHasNoMatch(s: string, pre: string, key: string, kind: ValueKind)
    requires pre <= s
    requires forall k :: 0 <= k < |pre| ==> NotQuote(pre[k])
    ensures NoMatchBetween(s, key, kind, 0, |pre|)
  {
    forall k | 0 <= k < |pre|
      ensures MatchAt(s, key, k, kind).None?
    {
      assert s[k] == pre[k];
    }
  }

  /** The text pattern matches at `i` when the characters there spell `"key": "v"`. */
  lemma TextMatchAt(s: string, key: string, i: nat, v: string)
    requires OccursAt(s, QuotedKey(key), i)
    requires |v| > 0 && forall k :: 0 <= k < |v| ==> NotQuote(v[k])
    requires i + |key| + 6 + |v| <= |s|
    requires s[i + |key| + 2] == ':' && s[i + |key| + 3] == ' ' && s[i + |key| + 4] == '"'
    requires s[i + |key| + 5..i + |key| + 5 + |v|] == v && s[i + |key| + 5 + |v|] == '"'
    ensures MatchAt(s, key, i, Text) == Some(v)
  {
    var colon := i + |key| + 2;
    var e := colon + 3 + |v|;
    RunEndAt(s, colon, colon, IsSpace);
    RunEndAt(s, colon + 1, colon + 2, IsSpace);
    assert forall k :: colon + 3 <= k < e ==> s[k] == v[k - colon - 3];
    RunEndAt(s, colon + 3, e, NotQuote);
  }

  /** The number pattern matches at `i` when the characters there spell `"key": d` with `d` a maximal digit run. */
  lemma NumberMatchAt(s: string, key: string, i: nat, d: string)
    requires OccursAt(s, QuotedKey(key), i)
    requires |d| > 0 && forall k :: 0 <= k < |d| ==> IsDigit(d[k])
    requires i + |key| + 4 + |d| <= |s|
    requires s[i + |key| + 2] == ':' && s[i + |key| + 3] == ' '
    requires s[i + |key| + 4..i + |key| + 4 + |d|] == d
    requires i + |key| + 4 + |d| == |s| || !IsDigit(s[i + |key| + 4 + |d|])
    ensures MatchAt(s, key, i, Digits) == Some(d)
  {
    var colon := i + |key| + 2;
    var e := colon + 2 + |d|;
    RunEndAt(s, colon, colon, IsSpace);
    RunEndAt(s, colon + 1, colon + 2, IsSpace);
    assert forall k :: colon + 2 <= k < e ==> s[k] == d[k - colon - 2];
    RunEndAt(s, colon + 2, e, IsDigit);
  }

  /**
   * A text field written the usual way is read back: after a quote-free
   * prefix, `"key": "v"` yields `v` for any non-empty quote-free `v`.
   */
  lemma TextFieldRoundTrip(pre: string, key: string, v: string, post: string)
    requires forall k :: 0 <= k < |pre| ==> NotQuote(pre[k])
    requires |v| > 0 && forall k :: 0 <= k < |v| ==> NotQuote(v[k])
    ensures Find(pre + QuotedKey(key) + [':', ' ', '"'] + v + ['"'] + post, key, Text) == Some(v)
  {
    var tail := QuotedKey(key) + [':', ' ', '"'] + v + ['"'] + post;
    var s := pre + tail;
    assert s == pre + QuotedKey(key) + [':', ' ', '"'] + v + ['"'] + post;
    var i := |pre|;
    assert tail[..|key| + 2] == QuotedKey(key);
    assert tail[|key| + 5..|key| + 5 + |v|] == v;
    assert s[i..] == tail;
    TextMatchAt(s, key, i, v);
    QuoteFreePrefixHasNoMatch(s, pre, key, Text);
    FindFromFirst(s, key, Text, 0, i);
  }

  /**
   * A numeric field is read back as the number written: after a quote-free
   * prefix, `"key": <decimal of n>` followed by anything but a digit yields those digits.
   */
  lemma NumberFieldRoundTrip(pre: string, key: string, n: nat, post: string)
    requires forall k :: 0 <= k < |pre| ==> NotQuote(pre[k])
    requires |post| == 0 || !IsDigit(post[0])
    ensures Find(pre + QuotedKey(key) + [':', ' '] + DecimalString(n) + post, key, Digits) == Some(DecimalString(n))
  {
    var d := DecimalString(n);
    var tail := QuotedKey(key) + [':', ' '] + d + post;
    var s := pre + tail;
    assert s == pre + QuotedKey(key) + [':', ' '] + d + post;
    var i := |pre|;
    assert tail[..|key| + 2] == QuotedKey(key);
    assert tail[|key| + 4..|key| + 4 + |d|] == d;
    assert s[i..] == tail;
    NumberMatchAt(s, key, i, d);
    QuoteFreePrefixHasNoMatch(s, pre, key, Digits);
    FindFromFirst(s, key, Digits, 0, i);
  }

  /** Read back through the width check: a written number is the field's value exactly when it fits. */
  lemma IntFieldRoundTrip(pre: string, key: string, n: nat, post: string)
    requires forall k :: 0 <= k < |pre| ==> NotQuote(pre[k])
    requires |post| == 0 || !IsDigit(post[0])
    ensures var json := pre + QuotedKey(key) + [':', ' '] + DecimalString(n) + post;
      && (n <= INT_MAX ==> IntField(json, key) == Success(Some(n)))
      && (n > INT_MAX ==> IntField(json, key).Failure?)
  {
    NumberFieldRoundTrip(pre, key, n, post);
    DecimalStringRoundTrip(n);
  }

  /** The number in the first match of a numeric field, before any width check. */
  function RawNumber(json: string, key: string): (n: Option<nat>)
    ensures n.None? <==> Find(json, key, Digits).None?
  {
    match Find(json, key, Digits)
    case None => None
    case Some(d) => Some(DigitsValue(d))
  }

  /** `Integer.parseInt` / `Long.parseLong` of the captured digits succeeds. */
  predicate Fits(json: string, key: string, limit: nat) {
    RawNumber(json, key).None? || RawNumber(json, key).value <= limit
  }

  /** The extracted record; every field may be missing. */
  datatype ExtractedCriteria = ExtractedCriteria(
    subscriptionName: Option<string>,
    location: Option<string>,
    address: Option<string>,
    housingType: Option<string>,
    minAge: Option<NatInt>,
    maxAge: Option<NatInt>,
    minIncome: Option<NatLong>,
    maxIncome: Option<NatLong>,
    minHouseholdMembers: Option<NatInt>,
    maxHouseholdMembers: Option<NatInt>,
    maxHousingOwned: Option<NatInt>,
    specialQualifications: Option<string>,
    preferenceCategories: Option<string>,
    minPrice: Option<NatLong>,
    maxPrice: Option<NatLong>,
    applicationPeriod: Option<string>)

  /** Every numeric field's first match fits its Java type. */
  predicate AllNumbersFit(json: string) {
    && Fits(json, "minAge", INT_MAX) && Fits(json, "maxAge", INT_MAX)
    && Fits(json, "minIncome", LONG_MAX) && Fits(json, "maxIncome", LONG_MAX)
    && Fits(json, "minHouseholdMembers", INT_MAX) && Fits(json, "maxHouseholdMembers", INT_MAX)
    && Fits(json, "maxHousingOwned", INT_MAX)
    && Fits(json, "minPrice", LONG_MAX) && Fits(json, "maxPrice", LONG_MAX)
  }

  /** `extractJsonInteger` / `extractJsonLong`: a missing match is null; digits too large throw. */
  function NumberField(json: string, key: string, limit: nat): (r: Result<Option<nat>, string>)
    ensures r.Success? <==> Fits(json, key, limit)
    ensures r.Success? ==> r.value == RawNumber(json, key)
    ensures r.Success? && r.value.Some? ==> r.value.value <= limit
  {
    match RawNumber(json, key)
    case None => Success(None)
    case Some(n) => if n <= limit then Success(Some(n)) else Failure("NumberFormatException")
  }

  function IntField(json: string, key: string): (r: Result<Option<NatInt>, string>)
    ensures r.Success? <==> Fits(json, key, INT_MAX)
    ensures r.Success? ==> r.value == RawNumber(json, key)
  {
    var n :- NumberField(json, key, INT_MAX);
    if n.None? then Success(None) else Success(Some(n.value))
  }

  function LongField(json: string, key: string): (r: Result<Option<NatLong>, string>)
    ensures r.Success? <==> Fits(json, key, LONG_MAX)
    ensures r.Success? ==> r.value == RawNumber(json, key)
  {
    var n :- NumberField(json, key, LONG_MAX);
    if n.None? then Success(None) else Success(Some(n.value))
  }

  /** `parseJsonManually`: every field scanned on its own; it fails only on a number too wide for its type. */
  function ParseJsonManually(json: string): (r: Result<ExtractedCriteria, string>)
    ensures r.Success? <==> AllNumbersFit(json)
    ensures r.Success? ==>
      && r.value.subscriptionName == Find(json, "subscriptionName", Text)
      && r.value.location == Find(json, "location", Text)
      && r.value.address == Find(json, "address", Text)
      && r.value.housingType == Find(json, "housingType", Text)
      && r.value.specialQualifications == Find(json, "specialQualifications", Text)
      && r.value.preferenceCategories == Find(json, "preferenceCategories", Text)
      && r.value.applicationPeriod == Find(json, "applicationPeriod", Text)
      && r.value.minAge == RawNumber(json, "minAge") && r.value.maxAge == RawNumber(json, "maxAge")
      && r.value.minIncome == RawNumber(json, "minIncome") && r.value.maxIncome == RawNumber(json, "maxIncome")
      && r.value.minHouseholdMembers == RawNumber(json, "minHouseholdMembers")
      && r.value.maxHouseholdMembers == RawNumber(json, "maxHouseholdMembers")
      && r.value.maxHousingOwned == RawNumber(json, "maxHousingOwned")
      && r.value.minPrice == RawNumber(json, "minPrice") && r.value.maxPrice == RawNumber(json, "maxPrice")
  {
    var minAge :- IntField(json, "minAge");
    var maxAge :- IntField(json, "maxAge");
    var minIncome :- LongField(json, "minIncome");
    var maxIncome :- LongField(json, "maxIncome");
    var minHousehold :- IntField(json, "minHouseholdMembers");
    var maxHousehold :- IntField(json, "maxHouseholdMembers");
    var maxHousingOwned :- IntField(json, "maxHousingOwned");
    var minPrice :- LongField(json, "minPrice");
    var maxPrice :- LongField(json, "maxPrice");
    Success(ExtractedCriteria(
      Find(json, "subscriptionName", Text), Find(json, "location", Text),
      Find(json, "address", Text), Find(json, "housingType", Text),
      minAge, maxAge, minIncome, maxIncome, minHousehold, maxHousehold, maxHousingOwned,
      Find(json, "specialQualifications", Text), Find(json, "preferenceCategories", Text),
      minPrice, maxPrice, Find(json, "applicationPeriod", Text)))
  }

  const FENCE := "```"
  const JSON_FENCE := "```json"

  /** Drop a leading "```json" or "```" and a trailing "```", then trim. */
  function Unfence(t: string): (u: string)
    ensures |u| <= |t| && SliceOf(u, t)
    ensures |u| > 0 ==> !IsTrimmed(u[0]) && !IsTrimmed(u[|u| - 1])
  {
    var a := if StartsWith(t, JSON_FENCE) then (DropFront(t, 7); t[7..]) else (SliceSelf(t); t);
    var b := if StartsWith(a, FENCE) then (DropFront(a, 3); a[3..]) else (SliceSelf(a); a);
    var c := if EndsWith(b, FENCE) then (DropBack(b, 3); b[..|b| - 3]) else (SliceSelf(b); b);
    SliceTrans(b, a, t);
    SliceTrans(c, b, t);
    TrimIsSlice(c);
    SliceTrans(Trim(c), c, t);
    Trim(c)
  }

  /** Trim, drop a leading "```json" or "```" and a trailing "```", trim again. */
  function StripFences(response: string): (json: string)
    ensures |json| <= |response| && SliceOf(json, response)
    ensures |json| > 0 ==> !IsTrimmed(json[0]) && !IsTrimmed(json[|json| - 1])
  {
    var t := Trim(response);
    var u := Unfence(t);
    TrimIsSlice(response);
    SliceTrans(u, t, response);
    u
  }

  /** "```json" starts with "```". */
  lemma JsonFenceIsFence(t: string)
    ensures StartsWith(t, JSON_FENCE) ==> StartsWith(t, FENCE)
  {
    if StartsWith(t, JSON_FENCE) {
      assert t[..3] == JSON_FENCE[..3];
    }
  }

  /** A reply whose trimmed text neither starts nor ends with a fence is only trimmed. */
  lemma StripUnfenced(response: string)
    ensures !StartsWith(Trim(response), FENCE) && !EndsWith(Trim(response), FENCE) ==>
      StripFences(response) == Trim(response)
  {
    var t := Trim(response);
    JsonFenceIsFence(t);
    TrimOfTrimmed(t);
  }

  /** After "```json", a body not starting with a backtick is all that is left between the fences. */
  lemma UnfenceJson(body: string)
    requires |body| > 0 ==> body[0] != '`'
    ensures Unfence(JSON_FENCE + body + FENCE) == Trim(body)
  {
    var t := JSON_FENCE + body + FENCE;
    assert StartsWith(t, JSON_FENCE);
    var a := t[7..];
    assert a == body + FENCE;
    if |body| > 0 {
      NotStartsWith(a, FENCE);
    } else {
      assert a == FENCE;
    }
    assert EndsWith(a, FENCE);
    assert a[..|a| - 3] == body;
  }

  /** A bare "```" followed by the body reads as "```json" exactly when the body starts with "json". */
  lemma FenceThenJson(body: string)
    ensures StartsWith(FENCE + body + FENCE, JSON_FENCE) <==> StartsWith(body, "json")
  {
    var t := FENCE + body + FENCE;
    if |body| < 4 {
      assert t[3 + |body|] == '`' != JSON_FENCE[3 + |body|];
    } else {
      assert t[..7] == FENCE + body[..4];
      assert JSON_FENCE == FENCE + "json";
      assert StartsWith(t, JSON_FENCE) <==> t[..7] == JSON_FENCE;
      assert StartsWith(body, "json") <==> body[..4] == "json";
      assert (FENCE + body[..4])[3..] == body[..4];
    }
  }

  /** After a bare "```", a body not starting with a backtick or "json" is all that is left between the fences. */
  lemma UnfenceBare(body: string)
    requires |body| > 0 ==> body[0] != '`'
    requires !StartsWith(body, "json")
    ensures Unfence(FENCE + body + FENCE) == Trim(body)
  {
    var t := FENCE + body + FENCE;
    FenceThenJson(body);
    assert StartsWith(t, FENCE);
    var b := t[3..];
    assert b == body + FENCE;
    assert EndsWith(b, FENCE);
    assert b[..|b| - 3] == body;
  }

  /**
   * A body between an opening fence (either "```json" or "```") and a closing
   * "```", with only blank characters outside, strips to the trimmed body.
   * The body must not start with a backtick, and after a bare "```" it must
   * not start with "json", since either would read as part of the opening.
   */
  lemma StripFencedAny(ws1: string, open: string, body: string, ws2: string)
    requires open == JSON_FENCE || open == FENCE
    requires IsBlank(ws1) && IsBlank(ws2)
    requires |body| > 0 ==> body[0] != '`'
    requires open == FENCE ==> !StartsWith(body, "json")
    ensures StripFences(ws1 + open + body + FENCE + ws2) == Trim(body)
  {
    var t := open + body + FENCE;
    BlankIffAllTrimmed(ws1);
    BlankIffAllTrimmed(ws2);
    assert t[0] == '`' && t[|t| - 1] == '`';
    assert ws1 + open + body + FENCE + ws2 == ws1 + t + ws2;
    TrimAround(ws1, t, ws2);
    if open == JSON_FENCE {
      UnfenceJson(body);
    } else {
      UnfenceBare(body);
    }
  }

  /**
   * A reply fenced as a Markdown JSON block is unwrapped to its body: for a
   * body with no blank ends that neither starts nor ends with a fence,
   * "```json\n" + body + "\n```" strips to the body.
   */
  lemma StripFencedBlock(body: string)
    requires |body| > 0 && !IsTrimmed(body[0]) && !IsTrimmed(body[|body| - 1])
    requires !StartsWith(body, FENCE) && !EndsWith(body, FENCE)
    ensures StripFences(JSON_FENCE + "\n" + body + "\n" + FENCE) == body
  {
    var r := JSON_FENCE + "\n" + body + "\n" + FENCE;
    TrimOfTrimmed(r);
    assert StartsWith(r, JSON_FENCE);
    var a := r[7..];
    assert a == "\n" + body + "\n" + FENCE;
    assert !StartsWith(a, FENCE);
    assert EndsWith(a, FENCE);
    var c := a[..|a| - 3];
    assert c == "\n" + body + "\n";
    TrimStartPast("\n", body + "\n");
    assert "\n" + body + "\n" == "\n" + (body + "\n");
    TrimOfTrimmed(body);
    assert TrimStart(body + "\n") == body + "\n";
    TrimEndPast(body, "\n");
  }

  /** A bare JSON object passes through the stripping untouched. */
  lemma StripBareObject(json: string)
    requires |json| >= 2 && json[0] == '{' && json[|json| - 1] == '}'
    ensures StripFences(json) == json
  {
    TrimOfTrimmed(json);
    assert !StartsWith(json, FENCE) by { assert json[0] != FENCE[0]; }
    assert !StartsWith(json, JSON_FENCE) by { assert json[0] != JSON_FENCE[0]; }
    assert !EndsWith(json, FENCE) by { assert json[|json| - 1] != FENCE[2]; }
  }

  const PARSE_FAILURE := "Failed to parse AI response"
  const EXTRACTION_PREFIX := "AI criteria extraction failed: "

  /** `parseGeminiResponse`: any scanning exception becomes one fixed message. */
  function ParseGeminiResponse(response: string): (r: Result<ExtractedCriteria, string>)
    ensures r.Success? <==> AllNumbersFit(StripFences(response))
    ensures r.Success? ==> r == ParseJsonManually(StripFences(response))
    ensures r.Failure? ==> r.error == PARSE_FAILURE
  {
    var parsed := ParseJsonManually(StripFences(response));
    if parsed.Failure? then Failure(PARSE_FAILURE) else parsed
  }

  /**
   * `extractCriteria`: the model call is an input (its reply or its error
   * message); every failure surfaces prefixed with "AI criteria extraction failed: ".
   */
  function ExtractCriteria(reply: Result<string, string>): (r: Result<ExtractedCriteria, string>)
    ensures reply.Failure? ==> r == Failure(EXTRACTION_PREFIX + reply.error)
    ensures reply.Success? ==> (r.Failure? <==> !AllNumbersFit(StripFences(reply.value)))
    ensures reply.Success? && r.Failure? ==> r.error == EXTRACTION_PREFIX + PARSE_FAILURE
    ensures r.Failure? ==> StartsWith(r.error, EXTRACTION_PREFIX)
  {
    match reply
    case Failure(e) => Failure(EXTRACTION_PREFIX + e)
    case Success(response) =>
      var parsed := ParseGeminiResponse(response);
      if parsed.Failure? then Failure(EXTRACTION_PREFIX + parsed.error) else parsed
  }
}
