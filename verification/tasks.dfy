/** `process_invoice_task`: the background job that runs the importer on one
    stored import record. The queue is left out; one call of the job is one
    run of this function. */
module InvoiceTasks {
  import opened Wrappers
  import opened Text
  import opened Dates
  import opened Users
  import opened Invoices
  import opened Database
  import opened ImportManager
  import DirectoryScanner

  /** The job returns its summary line, or raises (the queue records the
      error); either way the database is as the job left it. */
  datatype TaskResult = Returned(db: Db, text: string) | TaskRaised(db: Db, error: string)

  const NoFileMessage: string := "No file associated with InvoiceImport"
  const ImportNotFound: string := "InvoiceImport matching query does not exist."

  /** The message the fail handler writes ahead of the error's text. */
  const CriticalPrefix: string := "Critical Task Failure: "

  /** Sets the record to PROCESSING with a `save()`, unless it already is. */
  function MarkProcessing(db: Db, k: nat, now: Moment): (r: Db)
    requires Valid(db) && k < |db.imports| && IsValidMoment(now)
    ensures Valid(r) && r.reports == db.reports && r.log == db.log && |r.imports| == |db.imports|
    ensures r.imports == db.imports[k := r.imports[k]] && r.imports[k].status == Processing
    ensures db.imports[k].status == Processing ==> r == db
    ensures db.imports[k].status != Processing ==>
              r.imports[k] == db.imports[k].(status := Processing, updatedAt := now)
  {
    if db.imports[k].status == Processing then db
    else SaveStatus(db, k, Processing, now)
  }

  /** `invoice.status = s; invoice.save()`. */
  function SaveStatus(db: Db, k: nat, s: ImportStatus, now: Moment): (r: Db)
    requires Valid(db) && k < |db.imports| && IsValidMoment(now)
    ensures Valid(r) && r.reports == db.reports && r.log == db.log && r.categories == db.categories
    ensures r.imports == db.imports[k := db.imports[k].(status := s, updatedAt := now)]
  {
    Resave(db, k, db.imports[k].(status := s, updatedAt := now))
  }

  /** The fail handler: FAILED, the prefixed message and CRITICAL_TASK_FAILURE,
      saved with `update_fields`, so no other column, `updated_at` included,
      is written. */
  function FailTask(db: Db, k: nat, error: string): (r: Db)
    requires Valid(db) && k < |db.imports|
    ensures Valid(r) && r.reports == db.reports && r.log == db.log && r.categories == db.categories
    ensures r.imports == db.imports[k := db.imports[k].(status := Failed,
              errorMessage := Some(CriticalPrefix + error), errorCode := Some(CriticalTaskFailure))]
    ensures r.imports[k].updatedAt == db.imports[k].updatedAt
  {
    Resave(db, k, db.imports[k].(status := Failed, errorMessage := Some(CriticalPrefix + error),
                                 errorCode := Some(CriticalTaskFailure)))
  }

  /** The database after a job on a record without a file: marked
      PROCESSING, then failed by the handler with the fixed message. */
  function NoFileFailure(db: Db, id: nat, now: Moment): (r: Db)
    requires Valid(db) && id < |db.imports| && IsValidMoment(now)
    ensures Valid(r) && r.reports == db.reports && r.log == db.log && |r.imports| == |db.imports|
    ensures r.imports == db.imports[id := r.imports[id]]
    ensures r.imports[id].status == Failed && r.imports[id].errorCode == Some(CriticalTaskFailure)
    ensures r.imports[id].errorMessage == Some(CriticalPrefix + NoFileMessage)
  {
    FailTask(MarkProcessing(db, id, now), id, NoFileMessage)
  }

  /** The importer's view of the job's source: the stored file's path under
      the media root, a plain path rather than an uploaded file, no hints. */
  function TaskInput(extraction: Input, mediaRoot: string, file: string): (inp: Input)
    ensures !inp.isUpload && inp.metadata.None?
    ensures inp.source == DirectoryScanner.JoinPath(mediaRoot, file, '/')
    ensures inp.(source := extraction.source, isUpload := extraction.isUpload, metadata := extraction.metadata) == extraction
  {
    extraction.(source := DirectoryScanner.JoinPath(mediaRoot, file, '/'), isUpload := false, metadata := None)
  }

  /** The database the importer starts from: marked PROCESSING, then
      OCR_RUNNING. */
  function Started(db: Db, id: nat, now: Moment): (r: Db)
    requires Valid(db) && id < |db.imports| && IsValidMoment(now)
    ensures Valid(r) && r.reports == db.reports && r.log == db.log
    ensures r.imports == db.imports[id := db.imports[id].(status := OcrRunning, updatedAt := now)]
  {
    SaveStatus(MarkProcessing(db, id, now), id, OcrRunning, now)
  }

  /** The job once the record holds a file and the user is known: the
      importer runs on the record marked OCR_RUNNING; its outcome becomes the
      job's summary line, or its error marks the record failed. */
  function RunImporter(db: Db, id: nat, actor: Actor, extraction: Input, mediaRoot: string,
                       now: Moment): (r: TaskResult)
    requires Valid(db) && InputOk(extraction) && IsValidMoment(now) && id < |db.imports|
    ensures Valid(r.db)
    ensures var out := ProcessInvoice(Started(db, id, now), TaskInput(extraction, mediaRoot, db.imports[id].file),
                                      Some(id), actor, now);
      (out.Done? ==> r == Returned(out.db, "Processed " + NatToString(id) + ": " + ImportStatusName(out.status)))
      && (out.Raised? ==> r == TaskRaised(FailTask(Started(db, id, now), id, out.message), out.message))
  {
    var db2 := Started(db, id, now);
    match ProcessInvoice(db2, TaskInput(extraction, mediaRoot, db.imports[id].file), Some(id), actor, now)
    case Done(db3, status, _) => Returned(db3, "Processed " + NatToString(id) + ": " + ImportStatusName(status))
    case Raised(msg) => TaskRaised(FailTask(db2, id, msg), msg)
  }

  /** `process_invoice_task(invoice_import_id, user_id)`. `user` is what the
      user lookup gives: the requester (anonymous when no id is passed) or the
      error's text. `extraction` is what hashing and parsing the file give. */
  function ProcessTask(db: Db, id: nat, user: Result<Actor, string>, extraction: Input,
                       mediaRoot: string, now: Moment): (r: TaskResult)
    requires Valid(db) && InputOk(extraction) && IsValidMoment(now)
    ensures Valid(r.db)
    ensures id >= |db.imports| ==> r == TaskRaised(db, ImportNotFound)
    ensures id < |db.imports| && db.imports[id].file == "" ==>
              r == TaskRaised(NoFileFailure(db, id, now), NoFileMessage)
    ensures id < |db.imports| && db.imports[id].file != "" && user.Err? ==>
              r == TaskRaised(FailTask(MarkProcessing(db, id, now), id, user.error), user.error)
    ensures id < |db.imports| && db.imports[id].file != "" && user.Ok? ==>
              r == RunImporter(db, id, user.value, extraction, mediaRoot, now)
  {
    if id >= |db.imports| then TaskRaised(db, ImportNotFound)
    else if db.imports[id].file == "" then TaskRaised(NoFileFailure(db, id, now), NoFileMessage)
    else
      match user
      case Err(e) => TaskRaised(FailTask(MarkProcessing(db, id, now), id, e), e)
      case Ok(actor) => RunImporter(db, id, actor, extraction, mediaRoot, now)
  }

  /** A record without a stored file always ends FAILED with
      CRITICAL_TASK_FAILURE: the importer is never reached and nothing but the
      record changes. */
  lemma NoFileAlwaysFails(db: Db, id: nat, user: Result<Actor, string>, extraction: Input,
                          mediaRoot: string, now: Moment)
    requires Valid(db) && InputOk(extraction) && IsValidMoment(now)
    requires id < |db.imports| && db.imports[id].file == ""
    ensures ProcessTask(db, id, user, extraction, mediaRoot, now) == TaskRaised(NoFileFailure(db, id, now), NoFileMessage)
  {
  }

  /** When the job fails in its own steps, the record's `updated_at` is the
      one its last full save gave it. */
  lemma FailureKeepsTimestamp(db: Db, id: nat, user: Result<Actor, string>, extraction: Input,
                              mediaRoot: string, now: Moment)
    requires Valid(db) && InputOk(extraction) && IsValidMoment(now)
    requires id < |db.imports| && (db.imports[id].file == "" || user.Err?)
    ensures var r := ProcessTask(db, id, user, extraction, mediaRoot, now);
      r.db.imports[id].updatedAt
        == (if db.imports[id].status == Processing then db.imports[id].updatedAt else now)
  {
  }

  /** A record that holds a hash is never hashed again: the job's outcome
      does not depend on what hashing the file would give. */
  lemma StoredHashUsed(db: Db, id: nat, user: Result<Actor, string>, extraction: Input,
                       other: Result<string, string>, mediaRoot: string, now: Moment)
    requires Valid(db) && InputOk(extraction) && IsValidMoment(now)
    requires id < |db.imports| && db.imports[id].fileHash != ""
    ensures ProcessTask(db, id, user, extraction.(hash := other), mediaRoot, now)
            == ProcessTask(db, id, user, extraction, mediaRoot, now)
  {
    if db.imports[id].file != "" && user.Ok? {
      var db2 := Started(db, id, now);
      var b := TaskInput(extraction, mediaRoot, db.imports[id].file);
      assert TaskInput(extraction.(hash := other), mediaRoot, db.imports[id].file) == b.(hash := other);
      StoredHashReused(db2, b, id, other, user.value, now);
      assert RunImporter(db, id, user.value, extraction.(hash := other), mediaRoot, now)
             == RunImporter(db, id, user.value, extraction, mediaRoot, now);
    }
  }
}
