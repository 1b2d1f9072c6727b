/** Document writes: storing an upload, its content fingerprint, and status changes by id. */
module PdfCommands {
  import opened Wrappers
  import opened JavaNumbers
  import opened JavaStrings
  import opened PdfDocuments

  /** One byte of a digest, as the unsigned value `0xff & b`. */
  type Byte = x: int | 0 <= x < 256

  const HEX_DIGITS := "0123456789abcdef"

  predicate IsLowerHex(c: char) {
    ('0' <= c <= '9') || ('a' <= c <= 'f')
  }

  function HexDigit(d: nat): (c: char)
    requires d < 16
    ensures IsLowerHex(c)
  {
    HEX_DIGITS[d]
  }

  function HexValue(c: char): (d: nat)
    requires IsLowerHex(c)
    ensures d < 16
  {
    if '0' <= c <= '9' then c as int - '0' as int else c as int - 'a' as int + 10
  }

  lemma HexValueOfDigit(d: nat)
    requires d < 16
    ensures HexValue(HexDigit(d)) == d
  {
  }

  /** `Integer.toHexString` of a byte value: lowercase, with no leading zero. */
  function ToHexString(v: Byte): (h: string)
    ensures |h| == 1 <==> v < 16
    ensures 1 <= |h| <= 2 && forall k :: 0 <= k < |h| ==> IsLowerHex(h[k])
    ensures |h| == 2 ==> h[0] != '0'
    ensures |h| == 1 ==> HexValue(h[0]) == v
    ensures |h| == 2 ==> HexValue(h[0]) * 16 + HexValue(h[1]) == v
  {
    HexValueOfDigit(v / 16);
    HexValueOfDigit(v % 16);
    if v < 16 then [HexDigit(v)] else [HexDigit(v / 16), HexDigit(v % 16)]
  }

  /** A one-digit rendering gets a '0' in front, so each byte becomes exactly two characters. */
  function ByteHex(v: Byte): (h: string)
    ensures |h| == 2 && IsLowerHex(h[0]) && IsLowerHex(h[1])
    ensures HexValue(h[0]) * 16 + HexValue(h[1]) == v
  {
    var hex := ToHexString(v);
    HexValueOfDigit(v / 16);
    HexValueOfDigit(v % 16);
    if |hex| == 1 then ['0'] + hex else hex
  }

  /** The hex rendering loop of `generateCacheKey`. */
  function HexEncode(bytes: seq<Byte>): (s: string)
    ensures |s| == 2 * |bytes|
    ensures forall k :: 0 <= k < |s| ==> IsLowerHex(s[k])
  {
    if |bytes| == 0 then [] else ByteHex(bytes[0]) + HexEncode(bytes[1..])
  }

  /** Reads two hex characters per byte. */
  function HexDecode(s: string): (bytes: seq<Byte>)
    requires |s| % 2 == 0 && forall k :: 0 <= k < |s| ==> IsLowerHex(s[k])
    ensures |bytes| == |s| / 2
  {
    if |s| == 0 then [] else [HexValue(s[0]) * 16 + HexValue(s[1])] + HexDecode(s[2..])
  }

  /** The key determines the digest: decoding the rendering gives the bytes back. */
  lemma {:induction false} HexRoundTrip(bytes: seq<Byte>)
    ensures HexDecode(HexEncode(bytes)) == bytes
  {
    if |bytes| > 0 {
      var s := HexEncode(bytes);
      HexRoundTrip(bytes[1..]);
      assert s[2..] == HexEncode(bytes[1..]);
      assert s[0] == ByteHex(bytes[0])[0] && s[1] == ByteHex(bytes[0])[1];
    }
  }

  /** Distinct digests give distinct keys. */
  lemma HexEncodeInjective(a: seq<Byte>, b: seq<Byte>)
    requires HexEncode(a) == HexEncode(b)
    ensures a == b
  {
    HexRoundTrip(a);
    HexRoundTrip(b);
  }

  const SHA256_LENGTH := 32
  const CACHE_KEY_COLUMN := 64

  /**
   * `generateCacheKey`: the hex rendering of the content digest. The digest
   * itself is an input; when it cannot be computed the key is the fresh random
   * UUID passed in instead.
   */
  function GenerateCacheKey(digest: Result<seq<Byte>, string>, fallbackUuid: string): (key: string)
    ensures digest.Success? ==>
      && |key| == 2 * |digest.value| && (forall k :: 0 <= k < |key| ==> IsLowerHex(key[k]))
      && HexDecode(key) == digest.value
    ensures digest.Success? && |digest.value| == SHA256_LENGTH ==> |key| == CACHE_KEY_COLUMN
    ensures digest.Failure? ==> key == fallbackUuid
  {
    match digest
    case Success(bytes) => HexRoundTrip(bytes); HexEncode(bytes)
    case Failure(_) => fallbackUuid
  }

  /** The last position of `c` in `s`. */
  function LastIndexOf(s: string, c: char): (i: nat)
    requires c in s
    ensures i < |s| && s[i] == c
    ensures forall k :: i < k < |s| ==> s[k] != c
  {
    if s[|s| - 1] == c then |s| - 1 else LastIndexOf(s[..|s| - 1], c)
  }

  /** The original name's extension, from its last dot on; "" when there is no name or no dot. */
  function Extension(originalFilename: Option<string>): (ext: string)
    ensures originalFilename.None? || '.' !in originalFilename.value ==> ext == []
    ensures originalFilename.Some? && '.' in originalFilename.value ==>
      && |ext| > 0 && ext[0] == '.' && '.' !in ext[1..]
      && EndsWith(originalFilename.value, ext)
  {
    if originalFilename.Some? && '.' in originalFilename.value then
      var name := originalFilename.value;
      var ext := name[LastIndexOf(name, '.')..];
      assert forall k :: 1 <= k < |ext| ==> ext[k] != '.';
      ext
    else []
  }

  /** The documents table. */
  datatype DocStore = DocStore(docs: map<nat, PdfDocument>, nextId: nat)

  predicate ValidDocs(st: DocStore) {
    forall id :: id in st.docs ==> id < st.nextId && st.docs[id].id == id
  }

  function NotFoundMessage(id: nat): string {
    "PDF document not found: " + DecimalString(id)
  }

  /** `st'` is `st` with document `id` replaced by `doc` and nothing else changed. */
  predicate ReplacedOnly(st: DocStore, st': DocStore, id: nat, doc: PdfDocument) {
    && st'.nextId == st.nextId
    && st'.docs.Keys == st.docs.Keys && id in st'.docs && st'.docs[id] == doc
    && (forall other :: other in st.docs && other != id ==> st'.docs[other] == st.docs[other])
  }

  /** The status markers: load by id, refuse a missing one, change the document, save it. */
  function MarkById(st: DocStore, id: nat, m: Mark): (r: Result<DocStore, string>)
    ensures r.Failure? <==> id !in st.docs
    ensures r.Failure? ==> r.error == NotFoundMessage(id)
    ensures r.Success? ==>
      && r.value.nextId == st.nextId
      && r.value.docs.Keys == st.docs.Keys && id in r.value.docs
      && r.value.docs[id].status == MarkTarget(m)
      && (forall other :: other in st.docs && other != id ==> r.value.docs[other] == st.docs[other])
    ensures r.Success? ==> ReplacedOnly(st, r.value, id, ApplyMark(st.docs[id], m))
    ensures r.Success? && ValidDocs(st) ==> ValidDocs(r.value)
  {
    if id !in st.docs then Failure(NotFoundMessage(id))
    else Success(DocStore(st.docs[id := ApplyMark(st.docs[id], m)], st.nextId))
  }

  function MarkAsProcessing(st: DocStore, id: nat): (r: Result<DocStore, string>)
    ensures r.Success? <==> id in st.docs
    ensures r.Success? ==> id in r.value.docs && r.value.docs[id].status == PROCESSING
    ensures r.Failure? ==> r.error == NotFoundMessage(id)
    ensures r.Success? ==> ReplacedOnly(st, r.value, id, st.docs[id].(status := PROCESSING))
  {
    MarkById(st, id, ToProcessing)
  }

  function MarkAsCompleted(st: DocStore, id: nat): (r: Result<DocStore, string>)
    ensures r.Success? <==> id in st.docs
    ensures r.Success? ==> id in r.value.docs && r.value.docs[id].status == COMPLETED
    ensures r.Failure? ==> r.error == NotFoundMessage(id)
    ensures r.Success? ==> ReplacedOnly(st, r.value, id, st.docs[id].(status := COMPLETED))
  {
    MarkById(st, id, ToCompleted)
  }

  function MarkAsFailed(st: DocStore, id: nat, message: string): (r: Result<DocStore, string>)
    ensures r.Success? <==> id in st.docs
    ensures r.Success? ==> id in r.value.docs && r.value.docs[id].status == FAILED && r.value.docs[id].errorMessage == Some(message)
    ensures r.Failure? ==> r.error == NotFoundMessage(id)
    ensures r.Success? ==> ReplacedOnly(st, r.value, id, st.docs[id].(status := FAILED, errorMessage := Some(message)))
  {
    MarkById(st, id, ToFailed(message))
  }

  /** Two document ids are distinct in the not-found message. */
  lemma NotFoundNamesTheId(a: nat, b: nat)
    requires NotFoundMessage(a) == NotFoundMessage(b)
    ensures a == b
  {
    var prefix := "PDF document not found: ";
    assert NotFoundMessage(a)[|prefix|..] == DecimalString(a);
    assert NotFoundMessage(b)[|prefix|..] == DecimalString(b);
    DecimalStringInjective(a, b);
  }

  /** Why storing an upload can fail. */
  datatype SaveError = FileWriteFailed | FileNameMissing | ContentTypeMissing

  /** The uploaded file as the request carries it; `written` says whether copying it to disk succeeds. */
  datatype Upload = Upload(
    originalFilename: Option<string>,
    size: nat,
    contentType: Option<string>,
    digest: Result<seq<Byte>, string>,
    written: bool)

  /**
   * `saveUploadedFile`: store the bytes under a fresh UUID name keeping the
   * original extension, then insert a PENDING document with the content key.
   * A failed copy is an I/O error; a missing original name or content type
   * violates a NOT NULL column.
   */
  function SaveUploadedFile(st: DocStore, userId: nat, file: Upload, uploadDirectory: string,
                            uuid: string, fallbackUuid: string): (r: Result<(DocStore, PdfDocument), SaveError>)
    ensures !file.written ==> r == Failure(FileWriteFailed)
    ensures file.written && file.originalFilename.None? ==> r == Failure(FileNameMissing)
    ensures file.written && file.originalFilename.Some? && file.contentType.None? ==> r == Failure(ContentTypeMissing)
    ensures r.Success? ==> var (st', d) := r.value;
      && d.id == st.nextId && d.userId == userId && d.status == PENDING && d.errorMessage.None?
      && d.cacheKey == GenerateCacheKey(file.digest, fallbackUuid)
      && d.filePath == uploadDirectory + "/" + uuid + Extension(file.originalFilename)
      && d.fileSize == file.size && Some(d.contentType) == file.contentType
      && st'.docs == st.docs[d.id := d] && st'.nextId == st.nextId + 1
      && (ValidDocs(st) ==> ValidDocs(st'))
    ensures r.Success? <==> file.written && file.originalFilename.Some? && file.contentType.Some?
  {
    if !file.written then Failure(FileWriteFailed)
    else if file.originalFilename.None? then Failure(FileNameMissing)
    else if file.contentType.None? then Failure(ContentTypeMissing)
    else
      var path := uploadDirectory + "/" + uuid + Extension(file.originalFilename);
      var key := GenerateCacheKey(file.digest, fallbackUuid);
      var d := NewDocument(st.nextId, userId, file.originalFilename.value, path, file.size, file.contentType.value, key);
      Success((DocStore(st.docs[d.id := d], st.nextId + 1), d))
  }
}
