/** `InvoiceImport`: one row per distinct PDF (by content hash), with the
    metadata read from its path, the extracted data, the processing status and
    the link to the report it produced. */
module Invoices {
  import opened Wrappers
  import opened Text
  import opened Dates
  import opened Audit

  datatype ImportStatus = Inbox | Processing | OcrRunning | Pending | Success | Failed | Skipped | PendingReview

  /** The stored value of a status. */
  function ImportStatusName(s: ImportStatus): string {
    match s
    case Inbox => "INBOX"
    case Processing => "PROCESSING"
    case OcrRunning => "OCR_RUNNING"
    case Pending => "PENDING"
    case Success => "SUCCESS"
    case Failed => "FAILED"
    case Skipped => "SKIPPED"
    case PendingReview => "PENDING_REVIEW"
  }

  /** Reads a status string; anything outside the eight choices is not a status. */
  function ParseImportStatus(name: string): (r: Option<ImportStatus>)
    ensures r.Some? ==> ImportStatusName(r.value) == name
  {
    if name == "INBOX" then Some(Inbox)
    else if name == "PROCESSING" then Some(Processing)
    else if name == "OCR_RUNNING" then Some(OcrRunning)
    else if name == "PENDING" then Some(Pending)
    else if name == "SUCCESS" then Some(Success)
    else if name == "FAILED" then Some(Failed)
    else if name == "SKIPPED" then Some(Skipped)
    else if name == "PENDING_REVIEW" then Some(PendingReview)
    else None
  }

  /** There are exactly eight statuses, each read back from its name. */
  lemma ImportStatusRoundTrip(s: ImportStatus)
    ensures ParseImportStatus(ImportStatusName(s)) == Some(s)
    ensures s in {Inbox, Processing, OcrRunning, Pending, Success, Failed, Skipped, PendingReview}
  {
  }

  // Error codes written to `error_code`.
  const HashError: string := "HASH_ERROR"
  const DuplicateActive: string := "DUPLICATE_ACTIVE"
  const ExtractionFailed: string := "EXTRACTION_FAILED"
  const MissingRequiredData: string := "MISSING_REQUIRED_DATA"
  const CriticalTaskFailure: string := "CRITICAL_TASK_FAILURE"
  const TimeoutError: string := "TIMEOUT_ERROR"

  /** An import record. `file` is the stored file's name, empty when no file is
      attached (a falsy `FieldFile`); amounts are in cents; `report` is the id of
      the one report this import produced, if any. */
  datatype InvoiceImport = InvoiceImport(
    filePath: string,
    file: string,
    fileHash: string,
    year: int,
    city: string,
    carrier: string,
    month: string,
    invoiceNumber: Option<string>,
    dueDate: Option<Date>,
    totalValue: Option<int>,
    report: Option<nat>,
    status: ImportStatus,
    errorMessage: Option<string>,
    errorCode: Option<string>,
    confidence: int,
    createdAt: Moment,
    updatedAt: Moment)

  /** A record with only the required columns given: no file, no extracted
      data, no report, no error, status PENDING and confidence 0 by default. */
  function NewImport(filePath: string, fileHash: string, year: int, city: string,
                     carrier: string, month: string, now: Moment): (r: InvoiceImport)
    ensures r.status == Pending && r.confidence == 0
    ensures r.file == "" && r.report.None?
    ensures r.invoiceNumber.None? && r.dueDate.None? && r.totalValue.None?
    ensures r.errorMessage.None? && r.errorCode.None?
    ensures r.fileHash == fileHash && r.filePath == filePath
    ensures r.createdAt == now && r.updatedAt == now
  {
    InvoiceImport(filePath, "", fileHash, year, city, carrier, month, None, None, None,
                  None, Pending, None, None, 0, now, now)
  }

  /** The name a file saved as `name` gets under `upload_to='invoices/%Y/%m/'`
      on day `d`. */
  function StoredFileName(name: string, d: Date): (s: string)
    requires IsValid(d)
    ensures |s| > |name| && s[|s| - |name|..] == name
  {
    var s := "invoices/" + ZeroPad(d.year as nat, 4) + "/" + ZeroPad(d.month as nat, 2) + "/" + name;
    assert s[|s| - |name|..] == name;
    s
  }

  /** The dates are real calendar dates and the timestamps real instants. */
  predicate WellFormedImport(r: InvoiceImport) {
    (r.dueDate.Some? ==> IsValid(r.dueDate.value))
    && IsValidMoment(r.createdAt) && IsValidMoment(r.updatedAt)
  }

  function OptionalStr(x: Option<string>): Value {
    if x.Some? then Str(x.value) else Null
  }

  /** `model_to_dict(invoice)`: every editable column with the row id. */
  function ImportDict(id: nat, r: InvoiceImport): (d: Dict<Value>)
    requires WellFormedImport(r)
    ensures Serializable(d)
    ensures |d| == 16 && d[12] == ("status", Str(ImportStatusName(r.status)))
  {
    var d := [("id", Int(id)), ("file_path", Str(r.filePath)), ("file", Str(r.file)),
      ("file_hash", Str(r.fileHash)), ("year", Int(r.year)), ("city", Str(r.city)),
      ("carrier", Str(r.carrier)), ("month", Str(r.month)),
      ("invoice_number", OptionalStr(r.invoiceNumber)),
      ("due_date", if r.dueDate.Some? then Day(r.dueDate.value) else Null),
      ("total_value", if r.totalValue.Some? then Dec(r.totalValue.value) else Null),
      ("report", if r.report.Some? then Int(r.report.value) else Null),
      ("status", Str(ImportStatusName(r.status))),
      ("error_message", OptionalStr(r.errorMessage)),
      ("error_code", OptionalStr(r.errorCode)),
      ("confidence_score", Int(r.confidence))];
    d
  }
}
