/**
 * The upload endpoint: reject an empty, oversized or unsupported file before
 * anything is stored, then load the user, store the file as a PENDING
 * document and schedule its analysis with the user's profile.
 */
module PdfController {
  import opened Wrappers
  import opened JavaNumbers
  import opened JavaStrings
  import opened Eligibility
  import opened PdfDocuments
  import opened PdfCommands

  const MAX_FILE_SIZE: nat := 10 * 1024 * 1024

  const ALLOWED_CONTENT_TYPES: seq<string> := ["application/pdf", "image/jpeg", "image/jpg", "image/png"]

  const EMPTY_MESSAGE := "업로드된 파일이 비어있습니다"
  const FORMAT_MESSAGE := "지원하지 않는 파일 형식입니다 (PDF, JPEG, PNG만 지원)"
  const UPLOAD_FAILED_MESSAGE := "파일 업로드에 실패했습니다"

  /** The size message, with the limit written in whole megabytes. */
  function TooLargeMessage(): string {
    "파일 크기가 너무 큽니다 (최대 " + DecimalString(MAX_FILE_SIZE / (1024 * 1024)) + "MB)"
  }

  lemma TooLargeMessageSaysTen()
    ensures TooLargeMessage() == "파일 크기가 너무 큽니다 (최대 10MB)"
  {
    assert DecimalString(10) == "10";
  }

  /** How an upload request ends when it does not end with a stored document. */
  datatype UploadError =
    | Rejected(code: string, message: string)
    | UserNotFound(message: string)
    | NotStored(cause: SaveError)

  /** The registered users and their (possibly missing) profiles. */
  type Users = map<nat, Option<Profile>>

  /** The accepted upload: the stored document and the analysis scheduled for it. */
  datatype Accepted = Accepted(docs: DocStore, document: PdfDocument, analysisProfile: Option<Profile>)

  /** The content type is present and, lower-cased, one of the four allowed. */
  predicate AllowedType(contentType: Option<string>) {
    contentType.Some? && ToLower(contentType.value) in ALLOWED_CONTENT_TYPES
  }

  /** The three checks that run before anything is looked up or stored, in their order. */
  function Validate(file: Upload): (r: Option<UploadError>)
    ensures file.size == 0 ==> r == Some(Rejected("FILE_EMPTY", EMPTY_MESSAGE))
    ensures 0 < file.size && MAX_FILE_SIZE < file.size ==> r == Some(Rejected("FILE_TOO_LARGE", TooLargeMessage()))
    ensures 0 < file.size <= MAX_FILE_SIZE && !AllowedType(file.contentType) ==>
      r == Some(Rejected("INVALID_FILE_FORMAT", FORMAT_MESSAGE))
    ensures r.None? <==> 0 < file.size <= MAX_FILE_SIZE && AllowedType(file.contentType)
  {
    if file.size == 0 then Some(Rejected("FILE_EMPTY", EMPTY_MESSAGE))
    else if file.size > MAX_FILE_SIZE then Some(Rejected("FILE_TOO_LARGE", TooLargeMessage()))
    else if !AllowedType(file.contentType) then Some(Rejected("INVALID_FILE_FORMAT", FORMAT_MESSAGE))
    else None
  }

  /**
   * `uploadPdf`. A failed disk write is reported as FILE_UPLOAD_FAILED; a
   * missing user or a refused row propagates as it is.
   */
  function UploadPdf(docs: DocStore, users: Users, userId: nat, file: Upload,
                     uploadDirectory: string, uuid: string, fallbackUuid: string): (r: Result<Accepted, UploadError>)
    ensures Validate(file).Some? ==> r == Failure(Validate(file).value)
    ensures Validate(file).None? && userId !in users ==>
      r == Failure(UserNotFound("User not found with id: " + DecimalString(userId)))
    ensures Validate(file).None? && userId in users && !file.written ==>
      r == Failure(Rejected("FILE_UPLOAD_FAILED", UPLOAD_FAILED_MESSAGE))
    ensures r.Success? <==>
      Validate(file).None? && userId in users && file.written && file.originalFilename.Some?
    ensures r.Success? ==>
      && r.value.document.status == PENDING && r.value.document.userId == userId
      && r.value.document.id == docs.nextId
      && r.value.docs.docs == docs.docs[docs.nextId := r.value.document]
      && r.value.analysisProfile == users[userId]
      && (ValidDocs(docs) ==> ValidDocs(r.value.docs))
  {
    match Validate(file)
    case Some(e) => Failure(e)
    case None =>
      if userId !in users then Failure(UserNotFound("User not found with id: " + DecimalString(userId)))
      else
        match SaveUploadedFile(docs, userId, file, uploadDirectory, uuid, fallbackUuid)
        case Failure(FileWriteFailed) => Failure(Rejected("FILE_UPLOAD_FAILED", UPLOAD_FAILED_MESSAGE))
        case Failure(cause) => Failure(NotStored(cause))
        case Success((docs', d)) => Success(Accepted(docs', d, users[userId]))
  }

  /**
   * A file that fails validation is rejected the same way whoever sends it and
   * whatever the disk would do: nothing is looked up, stored or scheduled.
   */
  lemma ValidationComesFirst(docs: DocStore, users: Users, userId: nat, file: Upload,
                             dir: string, uuid: string, fallbackUuid: string,
                             users': Users, userId': nat, written': bool)
    requires Validate(file).Some?
    ensures UploadPdf(docs, users, userId, file, dir, uuid, fallbackUuid)
         == UploadPdf(docs, users', userId', file.(written := written'), dir, uuid, fallbackUuid)
    ensures UploadPdf(docs, users, userId, file, dir, uuid, fallbackUuid).Failure?
  {
    assert Validate(file.(written := written')) == Validate(file);
  }

  /** The size limit is inclusive: exactly ten megabytes passes the size check, one byte more does not. */
  lemma SizeLimitInclusive(file: Upload)
    requires AllowedType(file.contentType)
    ensures file.size == MAX_FILE_SIZE ==> Validate(file).None?
    ensures file.size == MAX_FILE_SIZE + 1 ==> Validate(file) == Some(Rejected("FILE_TOO_LARGE", TooLargeMessage()))
  {
  }

  /** The type check ignores letter case. */
  lemma UpperCaseTypeAccepted()
    ensures AllowedType(Some("APPLICATION/PDF")) && AllowedType(Some("Image/PNG"))
    ensures !AllowedType(Some("image/gif")) && !AllowedType(None)
  {
    assert ToLower("APPLICATION/PDF") == ALLOWED_CONTENT_TYPES[0];
    assert ToLower("Image/PNG") == ALLOWED_CONTENT_TYPES[3];
    assert ToLower("image/gif") == "image/gif";
    assert forall k :: 0 <= k < |ALLOWED_CONTENT_TYPES| ==> ALLOWED_CONTENT_TYPES[k] != "image/gif" by {
      assert ALLOWED_CONTENT_TYPES[1][6] != "image/gif"[6];
      assert ALLOWED_CONTENT_TYPES[2][6] != "image/gif"[6];
      assert ALLOWED_CONTENT_TYPES[3][6] != "image/gif"[6];
    }
  }
}
