/** The OCR adapter around the vision client: image detection, OCR and the quality grade of its text. */
module Vision {
  import opened Wrappers
  import opened JavaStrings

  /** Precomposed Hangul syllables, U+AC00 to U+D7A3. */
  predicate IsHangul(c: char) {
    '가' <= c <= '힣'
  }

  predicate IsDigit(c: char) {
    '0' <= c <= '9'
  }

  predicate IsAsciiLetter(c: char) {
    ('a' <= c <= 'z') || ('A' <= c <= 'Z')
  }

  /** How many characters of `s` satisfy `p`. */
  function CountWhere(s: string, p: char -> bool): (n: nat)
    ensures n <= |s|
    ensures n == 0 <==> forall i :: 0 <= i < |s| ==> !p(s[i])
    ensures n == |s| <==> forall i :: 0 <= i < |s| ==> p(s[i])
  {
    if |s| == 0 then 0
    else
      var rest := CountWhere(s[1..], p);
      assert forall i :: 1 <= i < |s| ==> s[i] == s[1..][i - 1];
      (if p(s[0]) then 1 else 0) + rest
  }

  /** Counting distributes over concatenation. */
  lemma {:induction false} CountAppend(s: string, t: string, p: char -> bool)
    ensures CountWhere(s + t, p) == CountWhere(s, p) + CountWhere(t, p)
    decreases |s|
  {
    if |s| > 0 {
      assert (s + t)[1..] == s[1..] + t;
      CountAppend(s[1..], t, p);
    } else {
      assert s + t == t;
    }
  }

  /** The three character classes are disjoint, so their counts never exceed the length. */
  lemma {:induction false} ClassCountsBounded(s: string)
    ensures CountWhere(s, IsHangul) + CountWhere(s, IsDigit) + CountWhere(s, IsAsciiLetter) <= |s|
    decreases |s|
  {
    if |s| > 0 {
      ClassCountsBounded(s[1..]);
    }
  }

  datatype Quality = HIGH | MEDIUM | LOW

  /** The grade as the pipeline stores it. */
  function QualityName(q: Quality): (name: string)
    ensures q == HIGH ==> name == "HIGH"
    ensures q == MEDIUM ==> name == "MEDIUM"
    ensures q == LOW ==> name == "LOW"
  {
    match q
    case HIGH => "HIGH"
    case MEDIUM => "MEDIUM"
    case LOW => "LOW"
  }

  datatype OcrQualityResult = OcrQualityResult(quality: Quality, warning: Option<string>)

  const NO_TEXT_WARNING := "추출된 텍스트가 없습니다. 이미지 품질을 확인해주세요."
  const TOO_SHORT_WARNING := "추출된 텍스트가 너무 짧습니다. 더 선명한 이미지를 사용해주세요."
  const INCOMPLETE_WARNING := "텍스트 인식이 불완전합니다. 이미지가 흐리거나 해상도가 낮을 수 있습니다."
  const DIGITS_WARNING := "자격 조건 숫자가 불완전할 수 있습니다. 결과를 확인해주세요."
  const PARTIAL_WARNING := "일부 내용이 불완전할 수 있습니다. 결과를 확인해주세요."

  /** Too little recognised text to trust: below 10% Hangul and fewer than 50 digits and letters together. */
  predicate Garbled(t: string) {
    10 * CountWhere(t, IsHangul) < |t| && CountWhere(t, IsDigit) + CountWhere(t, IsAsciiLetter) < 50
  }

  /** Long and dense in Hangul: over 500 characters and over 30% of them Hangul syllables. */
  predicate DenseKorean(t: string) {
    |t| > 500 && 10 * CountWhere(t, IsHangul) > 3 * |t|
  }

  /**
   * `assessOcrQuality`. The Hangul ratio is a double division of the count by
   * the length; for lengths below 2^31 it is on the same side of 0.1 and 0.3 as
   * the exact fraction, which is how it is stated here.
   */
  function AssessOcrQuality(text: Option<string>): (r: OcrQualityResult)
    ensures text.None? || IsBlank(text.value) ==> r == OcrQualityResult(LOW, Some(NO_TEXT_WARNING))
    ensures text.Some? && !IsBlank(text.value) && |text.value| < 100 ==>
      r == OcrQualityResult(LOW, Some(TOO_SHORT_WARNING))
    ensures text.Some? && !IsBlank(text.value) && |text.value| >= 100 && Garbled(text.value) ==>
      r == OcrQualityResult(LOW, Some(INCOMPLETE_WARNING))
    ensures r.quality == LOW <==> text.None? || IsBlank(text.value) || |text.value| < 100 || Garbled(text.value)
    ensures r.quality == HIGH <==>
      text.Some? && DenseKorean(text.value) && CountWhere(text.value, IsDigit) >= 5
    ensures r.quality == HIGH <==> r.warning.None?
    ensures r.quality == MEDIUM ==> r.warning == Some(DIGITS_WARNING) || r.warning == Some(PARTIAL_WARNING)
    ensures r.warning == Some(DIGITS_WARNING) <==>
      r.quality == MEDIUM && CountWhere(text.value, IsDigit) < 5
  {
    if text.None? || IsBlank(text.value) then OcrQualityResult(LOW, Some(NO_TEXT_WARNING))
    else
      var t := text.value;
      var korean := CountWhere(t, IsHangul);
      var numeric := CountWhere(t, IsDigit);
      var alpha := CountWhere(t, IsAsciiLetter);
      if |t| < 100 then OcrQualityResult(LOW, Some(TOO_SHORT_WARNING))
      else if 10 * korean < |t| && numeric + alpha < 50 then OcrQualityResult(LOW, Some(INCOMPLETE_WARNING))
      else if numeric < 5 then OcrQualityResult(MEDIUM, Some(DIGITS_WARNING))
      else if |t| > 500 && 10 * korean > 3 * |t| then OcrQualityResult(HIGH, None)
      else OcrQualityResult(MEDIUM, Some(PARTIAL_WARNING))
  }

  /** Dense Korean text is never graded LOW, whatever else it holds. */
  lemma DenseKoreanNeverLow(t: string)
    requires DenseKorean(t)
    ensures AssessOcrQuality(Some(t)).quality != LOW
  {
    HangulIsNotBlank(t);
  }

  /** A text holding a Hangul syllable is not blank. */
  lemma HangulIsNotBlank(t: string)
    requires CountWhere(t, IsHangul) > 0
    ensures !IsBlank(t)
  {
    BlankIffAllTrimmed(t);
    var i :| 0 <= i < |t| && IsHangul(t[i]);
    assert !IsTrimmed(t[i]);
  }

  /**
   * Six hundred Hangul syllables with no digits: over 30% Korean and well over
   * 500 characters, yet MEDIUM, because the digit check comes first.
   */
  lemma DenseKoreanWithoutDigitsIsMedium(t: string)
    requires |t| == 600 && forall i :: 0 <= i < |t| ==> IsHangul(t[i])
    ensures AssessOcrQuality(Some(t)) == OcrQualityResult(MEDIUM, Some(DIGITS_WARNING))
  {
    assert CountWhere(t, IsHangul) == 600;
    assert CountWhere(t, IsDigit) == 0 by {
      assert forall i :: 0 <= i < |t| ==> !IsDigit(t[i]);
    }
    HangulIsNotBlank(t);
  }

  /** `detectImageContent`: a failing detector means OCR is needed. */
  function DetectImageContent(detector: Result<bool, string>): (needsOcr: bool)
    ensures needsOcr <==> detector.Failure? || detector.value
  {
    if detector.Failure? then true else detector.value
  }

  /**
   * `performOcr`: a client failure becomes a failure carrying the client's
   * message after "OCR processing failed: "; a missing or blank text becomes "".
   */
  function PerformOcr(client: Result<Option<string>, string>): (r: Result<string, string>)
    ensures client.Failure? <==> r.Failure?
    ensures r.Failure? ==> r.error == "OCR processing failed: " + client.error
    ensures r.Success? ==> (r.value == [] <==> client.value.None? || IsBlank(client.value.value))
    ensures r.Success? && r.value != [] ==> client.value == Some(r.value)
  {
    match client
    case Failure(e) => Failure("OCR processing failed: " + e)
    case Success(text) =>
      if text.None? || IsBlank(text.value) then Success("") else Success(text.value)
  }
}
