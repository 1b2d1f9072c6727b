/** An uploaded document and its processing status. */
module PdfDocuments {
  import opened Wrappers

  /** The processing lifecycle. */
  datatype ProcessingStatus = PENDING | PROCESSING | COMPLETED | FAILED

  /** The status as shown to users. */
  function KoreanName(s: ProcessingStatus): (name: string)
    ensures s == PENDING ==> name == "대기중"
    ensures s == PROCESSING ==> name == "처리중"
    ensures s == COMPLETED ==> name == "완료"
    ensures s == FAILED ==> name == "실패"
  {
    match s
    case PENDING => "대기중"
    case PROCESSING => "처리중"
    case COMPLETED => "완료"
    case FAILED => "실패"
  }

  /** Distinct statuses have distinct display names. */
  lemma KoreanNamesDistinct(a: ProcessingStatus, b: ProcessingStatus)
    requires a != b
    ensures KoreanName(a) != KoreanName(b)
  {
  }

  datatype PdfDocument = PdfDocument(
    id: nat,
    userId: nat,
    fileName: string,
    filePath: string,
    fileSize: nat,
    contentType: string,
    status: ProcessingStatus,
    cacheKey: string,
    errorMessage: Option<string>)

  /** A new document: PENDING (the builder's default) with no error recorded. */
  function NewDocument(id: nat, userId: nat, fileName: string, filePath: string, fileSize: nat,
                       contentType: string, cacheKey: string): (d: PdfDocument)
    ensures d.status == PENDING && d.errorMessage.None?
    ensures d.id == id && d.userId == userId && d.cacheKey == cacheKey
    ensures d.fileName == fileName && d.filePath == filePath && d.fileSize == fileSize && d.contentType == contentType
  {
    PdfDocument(id, userId, fileName, filePath, fileSize, contentType, PENDING, cacheKey, None)
  }

  /** The status changes a caller can ask for. */
  datatype Mark = ToStatus(target: ProcessingStatus) | ToProcessing | ToCompleted | ToFailed(message: string)

  /**
   * `updateStatus`, `markAsProcessing`, `markAsCompleted`, `markAsFailed`:
   * none checks the current status, so every transition is allowed from every
   * status, a terminal one included. A mark lands on its target and touches
   * nothing but the status and, for a failure, the message.
   */
  function ApplyMark(d: PdfDocument, m: Mark): (r: PdfDocument)
    ensures r.status == MarkTarget(m)
    ensures r.errorMessage == (if m.ToFailed? then Some(m.message) else d.errorMessage)
    ensures r.(status := d.status, errorMessage := d.errorMessage) == d
  {
    match m
    case ToStatus(target) => d.(status := target)
    case ToProcessing => d.(status := PROCESSING)
    case ToCompleted => d.(status := COMPLETED)
    case ToFailed(message) => d.(status := FAILED, errorMessage := Some(message))
  }

  /** The status a mark leads to. */
  function MarkTarget(m: Mark): ProcessingStatus {
    match m
    case ToStatus(target) => target
    case ToProcessing => PROCESSING
    case ToCompleted => COMPLETED
    case ToFailed(_) => FAILED
  }

  /** A finished document can be put back to processing. */
  lemma TerminalStatusOverwritable(d: PdfDocument)
    requires d.status == COMPLETED || d.status == FAILED
    ensures ApplyMark(d, ToProcessing).status == PROCESSING
  {
  }

  /** A completed run after a failed one keeps the stale error message. */
  lemma CompletedAfterFailureKeepsMessage(d: PdfDocument, message: string)
    ensures ApplyMark(ApplyMark(d, ToFailed(message)), ToCompleted).status == COMPLETED
    ensures ApplyMark(ApplyMark(d, ToFailed(message)), ToCompleted).errorMessage == Some(message)
  {
  }
}
