/** The invoice endpoints' shared replies and permissions, the manual
    upload, the download of the stored PDF and the confirmation of a reviewed
    import. The folder scan trigger and the review inbox are the modules
    `ScanTrigger` and `InvoiceInbox`. A view's effect is the database it
    leaves, its reply and the ids of the background jobs it queues. */
module InvoiceViews {
  import opened Wrappers
  import opened Text
  import opened Dates
  import opened Money
  import opened Users
  import opened Audit
  import opened Invoices
  import opened Database
  import DirectoryScanner
  import InvoiceReviewer

  // ---- replies ----

  /** An inbox row as the inbox view lists it. */
  datatype InboxItem = InboxItem(
    id: nat,
    filePath: Option<string>,
    carrier: string,
    invoiceNumber: Option<string>,
    dueDate: Option<Date>,
    totalValue: real,
    confidence: int,
    createdAt: Moment,
    status: string,
    errorMessage: Option<string>,
    errorCode: Option<string>)

  /** The JSON bodies the views answer with. */
  datatype Body =
    | Detail(detail: string)
    | ErrorMessage(error: string)
    | ScanStarted(message: string, filesFound: nat, tasksDispatched: nat)
    | UploadAccepted(status: string, message: string, id: nat)
    | Attachment(filename: string, contentType: string, file: string)
    | Listing(items: seq<InboxItem>)
    | Confirmed(message: string)
    | Rejected(reason: InvoiceReviewer.ConfirmError)

  datatype Reply = Reply(code: int, body: Body)

  /** What a request leaves behind: the database, the reply, and the import
      ids handed to `process_invoice_task`, in order. */
  datatype Response = Response(db: Db, reply: Reply, queued: seq<nat>)

  // ---- permissions ----

  datatype View = TriggerImport | UploadInvoice | DownloadInvoice | InboxList | ConfirmInvoice

  /** `permission_classes` of each view. */
  function ViewPermission(v: View): (p: Permission)
    ensures p == IsAnalyst || p == IsViewer
    ensures p == IsViewer <==> v == DownloadInvoice || v == InboxList
  {
    match v
    case TriggerImport => IsAnalyst
    case UploadInvoice => IsAnalyst
    case DownloadInvoice => IsViewer
    case InboxList => IsViewer
    case ConfirmInvoice => IsAnalyst
  }

  /** A view refusing the request: 401 when no credentials were presented,
      403 when the user's role is not enough. */
  function Denial(actor: Actor): (r: Reply)
    ensures r.code == 401 || r.code == 403
    ensures r.code == 401 <==> actor.Anonymous?
    ensures r.body.Detail?
  {
    if actor.Anonymous? then Reply(401, Detail("Authentication credentials were not provided."))
    else Reply(403, Detail("You do not have permission to perform this action."))
  }

  /** Readers may list and download but neither import nor confirm; every
      role that may import may also read. */
  lemma ViewPolicy(actor: Actor)
    ensures actor.Authenticated? && actor.user.role == Visualizador ==>
              HasPermission(ViewPermission(InboxList), actor)
              && !HasPermission(ViewPermission(UploadInvoice), actor)
              && !HasPermission(ViewPermission(ConfirmInvoice), actor)
    ensures HasPermission(ViewPermission(UploadInvoice), actor) ==>
              HasPermission(ViewPermission(DownloadInvoice), actor)
  {
  }

  // ---- stored file name ----

  /** The name the stored copy of a file with hash `h` gets on `d`. */
  function HashFileName(h: string, d: Date): (s: string)
    requires IsValid(d)
    ensures |s| >= 4 && s[|s| - 4..] == ".pdf"
  {
    var s := StoredFileName(h + ".pdf", d);
    assert s[|s| - 4..] == s[|s| - |h + ".pdf"|..][|h|..];
    s
  }

  // ---- manual upload ----

  /** The uploaded file: its name and what hashing its content gives. */
  datatype Upload = Upload(name: string, hash: Result<string, string>)

  const NoFileSent: string := "Nenhum arquivo enviado."
  const OnlyPdf: string := "Apenas arquivos PDF são permitidos."
  const UploadNew: string := "Upload recebido. Processamento iniciado (Async)."
  const UploadKnown: string := "Fatura já existente. Reprocessamento iniciado."

  /** `InvoiceUploadView.post`: a PDF is hashed; the record with that hash
      is created (manual-upload defaults) or reset to PROCESSING; either way
      the content is stored as `<hash>.pdf` and the record's job is queued. */
  function UploadView(db: Db, actor: Actor, file: Option<Upload>, now: Moment): (r: Response)
    requires Valid(db) && IsValidMoment(now)
    ensures Valid(r.db) && r.db.reports == db.reports && r.db.log == db.log
    ensures !HasPermission(IsAnalyst, actor) ==> r == Response(db, Denial(actor), [])
    ensures HasPermission(IsAnalyst, actor) ==>
      if file.None? then r == Response(db, Reply(400, ErrorMessage(NoFileSent)), [])
      else if !DirectoryScanner.IsPdfName(file.value.name) then r == Response(db, Reply(400, ErrorMessage(OnlyPdf)), [])
      else if file.value.hash.Err? then r == Response(db, Reply(500, ErrorMessage(file.value.hash.error)), [])
      else
        var h := file.value.hash.value;
        var known := FindByHash(db.imports, h);
        |r.queued| == 1 && r.queued[0] < |r.db.imports|
        && r.reply == Reply(202, UploadAccepted("PROCESSING", if known.Some? then UploadKnown else UploadNew, r.queued[0]))
        && FindByHash(r.db.imports, h) == Some(r.queued[0])
        && r.db.imports[r.queued[0]].status == Processing
        && r.db.imports[r.queued[0]].file == HashFileName(h, now.date)
        && (known.Some? ==> r.queued[0] == known.value && r.db.imports == db.imports[known.value := r.db.imports[known.value]])
        && (known.None? ==> r.queued[0] == |db.imports| && r.db.imports[..|db.imports|] == db.imports
                            && r.db.imports[|db.imports|].filePath == file.value.name
                            && r.db.imports[|db.imports|].city == "Upload Manual"
                            && r.db.imports[|db.imports|].carrier == "Desconhecido")
  {
    if !HasPermission(IsAnalyst, actor) then Response(db, Denial(actor), [])
    else if file.None? then Response(db, Reply(400, ErrorMessage(NoFileSent)), [])
    else if !DirectoryScanner.IsPdfName(file.value.name) then Response(db, Reply(400, ErrorMessage(OnlyPdf)), [])
    else
      match file.value.hash
      case Err(e) => Response(db, Reply(500, ErrorMessage(e)), [])
      case Ok(h) =>
        var stored := HashFileName(h, now.date);
        match FindByHash(db.imports, h)
        case Some(k) =>
          var db1 := Resave(db, k, db.imports[k].(status := Processing, file := stored, updatedAt := now));
          FindByHashUnique(db1.imports, h, k);
          Response(db1, Reply(202, UploadAccepted("PROCESSING", UploadKnown, k)), [k])
        case None =>
          var rec := NewImport(file.value.name, h, now.date.year, "Upload Manual", "Desconhecido", "N/A", now)
                       .(status := Processing, file := stored);
          var (db1, k) := AddImport(db, rec);
          assert db1.imports[k] == rec;
          FindByHashUnique(db1.imports, h, k);
          Response(db1, Reply(202, UploadAccepted("PROCESSING", UploadNew, k)), [k])
  }

  /** Uploading the same content twice keeps one record: the second upload
      reports the record the first created (or reset) and adds none. */
  lemma UploadTwice(db: Db, actor: Actor, name: string, again: string, h: string, now: Moment, later: Moment)
    requires Valid(db) && IsValidMoment(now) && IsValidMoment(later) && HasPermission(IsAnalyst, actor)
    requires DirectoryScanner.IsPdfName(name) && DirectoryScanner.IsPdfName(again)
    ensures var first := UploadView(db, actor, Some(Upload(name, Ok(h))), now);
      var second := UploadView(first.db, actor, Some(Upload(again, Ok(h))), later);
      second.queued == first.queued && |second.db.imports| == |first.db.imports|
      && second.reply.body == UploadAccepted("PROCESSING", UploadKnown, first.queued[0])
  {
  }

  // ---- download ----

  const InvoiceNotFound: string := "Fatura não encontrada."
  const NoStoredFile: string := "Arquivo físico não encontrado para esta fatura."

  /** `s[:n]`: the first `n` characters, or all of a shorter string. */
  function Prefix(s: string, n: nat): (p: string)
    ensures |p| == if |s| < n then |s| else n
    ensures p <= s
  {
    if |s| <= n then s else s[..n]
  }

  /** `InvoiceDownloadView.get`: a record with a stored file is exported
      (one EXPORT audit entry) and sent as `fatura_<first 8 hash chars>.pdf`;
      `openError` is the error opening the stored file raises, if any. The
      audit entry is written before the file is opened, so it stays when the
      opening fails. */
  function Download(db: Db, actor: Actor, pk: nat, openError: Option<string>, now: Moment): (r: Response)
    requires Valid(db)
    ensures Valid(r.db) && r.queued == []
    ensures r.db.imports == db.imports && r.db.reports == db.reports && r.db.categories == db.categories
    ensures !HasPermission(IsViewer, actor) ==> r == Response(db, Denial(actor), [])
    ensures HasPermission(IsViewer, actor) && pk >= |db.imports| ==>
              r == Response(db, Reply(404, ErrorMessage(InvoiceNotFound)), [])
    ensures HasPermission(IsViewer, actor) && pk < |db.imports| && db.imports[pk].file == "" ==>
              r == Response(db, Reply(404, ErrorMessage(NoStoredFile)), [])
    ensures r.db.log != db.log <==> HasPermission(IsViewer, actor) && pk < |db.imports| && db.imports[pk].file != ""
    ensures r.db.log != db.log ==>
              |r.db.log| == |db.log| + 1 && r.db.log[..|db.log|] == db.log
              && r.db.log[|db.log|].action == Export && r.db.log[|db.log|].entity == "InvoiceImport"
              && r.db.log[|db.log|].entityId == IntToString(pk) && r.db.log[|db.log|].createdAt == now
              && r.db.log[|db.log|].before.None? && r.db.log[|db.log|].after.None?
    ensures r.db.log != db.log && openError.Some? ==>
              r.reply == Reply(500, ErrorMessage("Erro ao ler arquivo: " + openError.value))
    ensures r.db.log != db.log && openError.None? ==>
              var h := db.imports[pk].fileHash;
              r.reply.code == 200 && r.reply.body.Attachment?
              && r.reply.body.file == db.imports[pk].file && r.reply.body.contentType == "application/pdf"
              && r.reply.body.filename == "fatura_" + Prefix(h, 8) + ".pdf"
  {
    if !HasPermission(IsViewer, actor) then Response(db, Denial(actor), [])
    else if pk >= |db.imports| then Response(db, Reply(404, ErrorMessage(InvoiceNotFound)), [])
    else if db.imports[pk].file == "" then Response(db, Reply(404, ErrorMessage(NoStoredFile)), [])
    else
      var log := LogAction(db.log, actor, Export, "InvoiceImport", pk, None, None, Some("InvoiceImport"), now);
      var db1 := WithLog(db, log);
      match openError
      case Some(e) => Response(db1, Reply(500, ErrorMessage("Erro ao ler arquivo: " + e)), [])
      case None =>
        var rec := db.imports[pk];
        Response(db1, Reply(200, Attachment("fatura_" + Prefix(rec.fileHash, 8) + ".pdf", "application/pdf", rec.file)), [])
  }

  /** The file name carries the first eight characters of the hash, so two
      downloads of records whose hashes share them get the same name. */
  lemma DownloadNameFromHash(db: Db, actor: Actor, pk: nat, now: Moment)
    requires Valid(db) && HasPermission(IsViewer, actor) && pk < |db.imports| && db.imports[pk].file != ""
    requires |db.imports[pk].fileHash| >= 8
    ensures var b := Download(db, actor, pk, None, now).reply.body;
      b.Attachment? && |b.filename| == 19 && b.filename[7..15] == db.imports[pk].fileHash[..8]
  {
    var b := Download(db, actor, pk, None, now).reply.body;
    assert b.filename == "fatura_" + db.imports[pk].fileHash[..8] + ".pdf";
  }

  // ---- confirmation ----

  const ConfirmedMessage: string := "Fatura confirmada e relatório gerado."

  /** `InvoiceConfirmView.post`: runs the reviewer's confirmation; any error
      it raises is answered with 400 and, the confirmation being one
      transaction, leaves the database as it was. */
  function ConfirmView(db: Db, actor: Actor, pk: nat, sub: InvoiceReviewer.Submitted, now: Moment): (r: Response)
    requires Valid(db) && IsValidMoment(now)
    ensures Valid(r.db) && r.queued == []
    ensures !HasPermission(IsAnalyst, actor) ==> r == Response(db, Denial(actor), [])
    ensures HasPermission(IsAnalyst, actor) ==>
              var c := InvoiceReviewer.Confirm(db, pk, sub, actor, now);
              (c.Ok? ==> r == Response(c.value.0, Reply(200, Confirmed(ConfirmedMessage)), []))
              && (c.Err? ==> r == Response(db, Reply(400, Rejected(c.error)), []))
    ensures HasPermission(IsAnalyst, actor) ==>
              (r.reply.code == 400 <==> pk >= |db.imports| || InvoiceReviewer.DueEdited(db.imports[pk], sub))
  {
    if !HasPermission(IsAnalyst, actor) then Response(db, Denial(actor), [])
    else
      match InvoiceReviewer.Confirm(db, pk, sub, actor, now)
      case Ok((db1, _)) => Response(db1, Reply(200, Confirmed(ConfirmedMessage)), [])
      case Err(e) => Response(db, Reply(400, Rejected(e)), [])
  }
}
