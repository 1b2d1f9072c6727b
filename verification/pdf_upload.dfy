/**
 * The web client's check of a chosen file before upload: a PDF by type or by
 * extension, at most ten megabytes, not empty.
 */
module PdfUpload {
  import opened Wrappers
  import opened JavaNumbers
  import opened JavaStrings
  import PdfCommands
  import PdfController

  const MAX_FILE_SIZE: nat := 10 * 1024 * 1024
  const PDF_MIME_TYPE := "application/pdf"
  const PDF_EXTENSION := ".pdf"

  /** A browser `File` as the check reads it; an unknown type is the empty string. */
  datatype ClientFile = ClientFile(name: string, mimeType: string, size: nat)

  datatype FileValidationError = FileValidationError(code: string, message: string)

  datatype FileValidationResult = FileValidationResult(isValid: bool, errors: seq<FileValidationError>)

  const INVALID_TYPE := FileValidationError("INVALID_TYPE", "PDF 파일만 업로드할 수 있습니다.")
  const EMPTY := FileValidationError("EMPTY", "빈 파일은 업로드할 수 없습니다.")

  /** The size error, with the limit written in whole megabytes. */
  function TooLarge(): FileValidationError {
    FileValidationError("TOO_LARGE", "파일 크기는 " + DecimalString(MAX_FILE_SIZE / (1024 * 1024)) + "MB를 초과할 수 없습니다.")
  }

  lemma TooLargeSaysTen()
    ensures TooLarge().message == "파일 크기는 10MB를 초과할 수 없습니다."
  {
    assert DecimalString(10) == "10";
  }

  /** The last piece of a split: JavaScript's `split` keeps empty pieces, so `pop` always has one. */
  function LastPiece(s: string, sep: char): string {
    var parts := Pieces(s, sep);
    parts[|parts| - 1]
  }

  /** One step of the split: how the last piece of `s` relates to that of `s[1..]`. */
  lemma LastPieceStep(s: string, sep: char)
    requires |s| > 0
    ensures s[0] == sep ==>
      LastPiece(s, sep) == LastPiece(s[1..], sep) && |Pieces(s, sep)| == |Pieces(s[1..], sep)| + 1
    ensures s[0] != sep && |Pieces(s[1..], sep)| == 1 ==>
      LastPiece(s, sep) == [s[0]] + LastPiece(s[1..], sep) && |Pieces(s, sep)| == 1
    ensures s[0] != sep && |Pieces(s[1..], sep)| > 1 ==>
      LastPiece(s, sep) == LastPiece(s[1..], sep) && |Pieces(s, sep)| == |Pieces(s[1..], sep)|
  {
  }

  /** A suffix of `s[1..]` is the suffix of `s` of the same length. */
  lemma SuffixOfTail(s: string, q: string)
    requires |s| > 0 && |q| < |s| && q == s[1..][|s| - 1 - |q|..]
    ensures q == s[|s| - |q|..]
  {
    assert s[|s| - |q|..] == s[1..][|s| - 1 - |q|..];
  }

  /**
   * The last piece is the longest suffix free of the separator: it ends the
   * string, holds no separator, and is either the whole string or preceded
   * by one.
   */
  lemma {:induction false} LastPieceIsSuffix(s: string, sep: char)
    ensures var p := LastPiece(s, sep);
      && |p| <= |s| && p == s[|s| - |p|..]
      && sep !in p
      && (|p| < |s| ==> s[|s| - |p| - 1] == sep)
    ensures |Pieces(s, sep)| == 1 ==> LastPiece(s, sep) == s
    ensures |Pieces(s, sep)| > 1 ==> |LastPiece(s, sep)| < |s|
  {
    var p := LastPiece(s, sep);
    assert forall i :: 0 <= i < |p| ==> p[i] != sep;
    if |s| > 0 {
      var tail := s[1..];
      LastPieceIsSuffix(tail, sep);
      LastPieceStep(s, sep);
      var q := LastPiece(tail, sep);
      if s[0] == sep || |Pieces(tail, sep)| > 1 {
        assert p == q;
        SuffixOfTail(s, q);
        if |q| < |tail| {
          assert s[|s| - |p| - 1] == tail[|tail| - |q| - 1];
        }
      } else {
        assert q == tail;
        assert p == [s[0]] + tail == s;
      }
    }
  }

  /** `"." + name.split(".").pop().toLowerCase()`. */
  function Extension(name: string): (ext: string)
    ensures |ext| == |LastPiece(name, '.')| + 1 && ext[0] == '.'
  {
    "." + ToLower(LastPiece(name, '.'))
  }

  /** A name without a dot is its own last piece, so its extension is the whole name lower-cased after a dot. */
  lemma DotlessExtension(name: string)
    requires '.' !in name
    ensures Extension(name) == "." + ToLower(name)
  {
    NoSeparatorOnePiece(name, '.');
  }

  /** The type test: the MIME type or the extension names a PDF. */
  predicate PdfByTypeOrName(file: ClientFile) {
    file.mimeType == PDF_MIME_TYPE || Extension(file.name) == PDF_EXTENSION
  }

  /** `validateFile`: the type, size and emptiness errors, in that order. */
  function ValidateFile(file: ClientFile): (r: FileValidationResult)
    ensures r.isValid <==> |r.errors| == 0
    ensures r.isValid <==> PdfByTypeOrName(file) && 0 < file.size <= MAX_FILE_SIZE
    ensures r.errors ==
      (if PdfByTypeOrName(file) then [] else [INVALID_TYPE])
      + (if file.size > MAX_FILE_SIZE then [TooLarge()] else [])
      + (if file.size == 0 then [EMPTY] else [])
    ensures |r.errors| <= 2
  {
    var errors := (if !PdfByTypeOrName(file) then [INVALID_TYPE] else [])
      + (if file.size > MAX_FILE_SIZE then [TooLarge()] else [])
      + (if file.size == 0 then [EMPTY] else []);
    FileValidationResult(|errors| == 0, errors)
  }

  /**
   * `selectFile`: no file clears both the selection and the result; a file is
   * kept only when valid, and its result is kept either way.
   */
  function SelectFile(file: Option<ClientFile>): (r: (Option<ClientFile>, Option<FileValidationResult>))
    ensures file.None? ==> r == (None, None)
    ensures file.Some? ==> r.1 == Some(ValidateFile(file.value))
    ensures r.0.Some? <==> file.Some? && ValidateFile(file.value).isValid
    ensures r.0.Some? ==> r.0 == file
  {
    match file
    case None => (None, None)
    case Some(f) =>
      var v := ValidateFile(f);
      (if v.isValid then Some(f) else None, Some(v))
  }

  /** The last piece is whatever follows the final separator. */
  lemma {:induction false} LastPieceAfter(prefix: string, tail: string, sep: char)
    requires sep !in tail
    ensures |Pieces(prefix + [sep] + tail, sep)| >= 2
    ensures LastPiece(prefix + [sep] + tail, sep) == tail
  {
    var s := prefix + [sep] + tail;
    if |prefix| == 0 {
      assert s == [sep] + tail && s[1..] == tail;
      NoSeparatorOnePiece(tail, sep);
    } else {
      assert s[1..] == prefix[1..] + [sep] + tail;
      LastPieceAfter(prefix[1..], tail, sep);
      var rest := Pieces(s[1..], sep);
      if s[0] != sep {
        assert Pieces(s, sep) == [[s[0]] + rest[0]] + rest[1..];
      }
    }
  }

  /** The extension is the lower-cased text after the final dot. */
  lemma ExtensionAfterDot(prefix: string, tail: string)
    requires '.' !in tail
    ensures Extension(prefix + ['.'] + tail) == "." + ToLower(tail)
  {
    LastPieceAfter(prefix, tail, '.');
  }

  /** The extension ignores case and looks only after the last dot. */
  lemma ExtensionOfMixedCase()
    ensures Extension("report.PDF") == PDF_EXTENSION
  {
    assert "report" + ['.'] + "PDF" == "report.PDF";
    ExtensionAfterDot("report", "PDF");
    LowerPdf();
  }

  lemma LowerPdf()
    ensures ToLower("PDF") == "pdf"
  {
    assert LowerAscii('P') == 'p' && LowerAscii('D') == 'd' && LowerAscii('F') == 'f';
  }

  lemma ExtensionOfDoubleSuffix()
    ensures Extension("archive.pdf.zip") == ".zip"
  {
    assert "archive.pdf" + ['.'] + "zip" == "archive.pdf.zip";
    ExtensionAfterDot("archive.pdf", "zip");
    assert ToLower("zip") == "zip";
  }

  /** A name without a dot is its own extension, so a file named just `pdf` passes as a PDF. */
  lemma DotlessNameIsItsOwnExtension()
    ensures Extension("pdf") == PDF_EXTENSION
  {
    DotlessExtension("pdf");
    assert ToLower("pdf") == "pdf";
  }

  /** The size limit and emptiness never fail together. */
  lemma AtMostOneSizeError(file: ClientFile)
    ensures !(TooLarge() in ValidateFile(file).errors && EMPTY in ValidateFile(file).errors)
  {
  }

  /**
   * When the browser sends the file's own type, a file the client accepts with
   * the PDF type also passes the server's three checks.
   */
  lemma ClientPdfPassesServer(file: ClientFile, digest: Result<seq<PdfCommands.Byte>, string>, written: bool)
    requires ValidateFile(file).isValid && file.mimeType == PDF_MIME_TYPE
    ensures PdfController.Validate(PdfCommands.Upload(Some(file.name), file.size, Some(file.mimeType), digest, written)).None?
  {
    assert ToLower(PDF_MIME_TYPE) == PdfController.ALLOWED_CONTENT_TYPES[0];
  }

  /** A file named `.pdf` with an unknown type passes the client and is refused by the server. */
  lemma NamedPdfRefusedByServer(digest: Result<seq<PdfCommands.Byte>, string>)
    ensures ValidateFile(ClientFile("a.pdf", "application/octet-stream", 1)).isValid
    ensures PdfController.Validate(PdfCommands.Upload(Some("a.pdf"), 1, Some("application/octet-stream"), digest, true))
         == Some(PdfController.Rejected("INVALID_FILE_FORMAT", PdfController.FORMAT_MESSAGE))
  {
    assert "a" + ['.'] + "pdf" == "a.pdf";
    ExtensionAfterDot("a", "pdf");
    assert ToLower("pdf") == "pdf";
    assert Extension("a.pdf") == PDF_EXTENSION;
    assert ValidateFile(ClientFile("a.pdf", "application/octet-stream", 1)).isValid;
    assert |ToLower("application/octet-stream")| == 24;
    assert !PdfController.AllowedType(Some("application/octet-stream"));
  }

  /** A PNG image passes the server and is refused by the client. */
  lemma PngRefusedByClient(digest: Result<seq<PdfCommands.Byte>, string>)
    ensures ValidateFile(ClientFile("a.png", "image/png", 1)).errors == [INVALID_TYPE]
    ensures PdfController.Validate(PdfCommands.Upload(Some("a.png"), 1, Some("image/png"), digest, true)).None?
  {
    PngIsNotPdf();
    assert ToLower("image/png") == PdfController.ALLOWED_CONTENT_TYPES[3];
  }

  lemma PngIsNotPdf()
    ensures !PdfByTypeOrName(ClientFile("a.png", "image/png", 1))
  {
    PngExtension();
    assert ".png"[2] != PDF_EXTENSION[2];
    assert "image/png"[0] != PDF_MIME_TYPE[0];
  }

  lemma PngExtension()
    ensures Extension("a.png") == ".png"
  {
    assert "a" + ['.'] + "png" == "a.png";
    ExtensionAfterDot("a", "png");
    assert ToLower("png") == "png";
  }
}
