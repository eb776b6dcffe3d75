/** `InvoiceUpload`: choosing a PDF, sending it to the upload endpoint, and
    what the screen does with the answer. */
module UploadScreen {
  import opened Wrappers
  import opened Text
  import opened Dates
  import opened Users
  import opened Database
  import opened ClientUi
  import InvoiceViews
  import DirectoryScanner

  /** A file the browser hands over: its name, MIME type and size in bytes. */
  datatype PickedFile = PickedFile(name: string, mimeType: string, size: nat)

  /** The on-page result card's data. */
  datatype ResultCard = ResultCard(status: string, message: string)

  datatype UploadState = UploadState(file: Option<PickedFile>, loading: bool,
                                     result: Option<ResultCard>, error: Option<string>)

  const PdfMime: string := "application/pdf"
  const MaxBytes: nat := 10 * 1024 * 1024
  const NotPdf: string := "Por favor, selecione apenas arquivos PDF."
  const TooLarge: string := "O arquivo é muito grande. O limite é de 10MB."

  /** `validateAndSetFile`: the MIME type is checked first, then the size; a
      rejected file clears the selection and keeps the old result, an
      accepted one clears the error and the result. */
  function Pick(st: UploadState, f: PickedFile): (r: UploadState)
    ensures r.loading == st.loading
    ensures r.file.Some? <==> f.mimeType == PdfMime && f.size <= MaxBytes
    ensures r.file.Some? ==> r == UploadState(Some(f), st.loading, None, None)
    ensures f.mimeType != PdfMime ==> r == st.(file := None, error := Some(NotPdf))
    ensures f.mimeType == PdfMime && f.size > MaxBytes ==> r == st.(file := None, error := Some(TooLarge))
  {
    if f.mimeType != PdfMime then st.(file := None, error := Some(NotPdf))
    else if f.size > MaxBytes then st.(file := None, error := Some(TooLarge))
    else UploadState(Some(f), st.loading, None, None)
  }

  /** The limit is inclusive: exactly 10 MiB passes, one byte more does not. */
  lemma SizeLimitInclusive(st: UploadState, name: string)
    ensures Pick(st, PickedFile(name, PdfMime, 10485760)).file.Some?
    ensures Pick(st, PickedFile(name, PdfMime, 10485761)).error == Some(TooLarge)
  {
  }

  /** The client checks the MIME type and the server the file name, so a
      file can pass one and not the other. */
  lemma ChecksDiffer(st: UploadState)
    ensures Pick(st, PickedFile("fatura", PdfMime, 1)).file.Some?
    ensures !DirectoryScanner.IsPdfName("fatura")
    ensures Pick(st, PickedFile("fatura.pdf", "application/octet-stream", 1)).file.None?
    ensures DirectoryScanner.IsPdfName("fatura.pdf")
  {
    assert Lower("fatura.pdf") == "fatura.pdf";
    assert Lower("fatura") == "fatura";
  }

  /** What the request gives the screen: a 2xx body's status and message,
      or a failure with the body's `error` field when it has one (no field
      at all when there was no answer). */
  datatype Answer = Answered(status: string, message: string) | Failed(error: Option<string>)

  /** How the HTTP client reads one of the views' replies. */
  function Read(reply: InvoiceViews.Reply): (a: Answer)
    ensures a.Answered? <==> 200 <= reply.code < 300
    ensures a.Answered? && reply.body.UploadAccepted? ==>
      a == Answered(reply.body.status, reply.body.message)
    ensures a.Failed? && reply.body.ErrorMessage? ==> a.error == Some(reply.body.error)
    ensures a.Failed? && !reply.body.ErrorMessage? ==> a.error.None?
  {
    if 200 <= reply.code < 300 then
      match reply.body
      case UploadAccepted(s, m, _) => Answered(s, m)
      case _ => Answered("", "")
    else
      match reply.body
      case ErrorMessage(e) => Failed(Some(e))
      case _ => Failed(None)
  }

  /** The statuses that send the user to the inbox. */
  predicate Routed(status: string) {
    status in {"SUCCESS", "PROCESSING", "PENDING_REVIEW", "SKIPPED"}
  }

  const UploadStarted: string := "Upload recebido. Processamento iniciado."
  const SendFailed: string := "Erro ao enviar fatura. Tente novamente."

  /** The effect of a click on the upload button. */
  datatype Click = Click(state: UploadState, sent: Option<PickedFile>, notice: Option<Notice>,
                         toInbox: bool)

  /** `handleUpload`: no file, no request. Otherwise the file is sent; a
      routed status notifies (a warning for PENDING_REVIEW) and goes to the
      inbox, any other status becomes the result card; the selection is
      cleared after any answer and kept after a failure, whose message is the
      body's error or a fixed default. */
  function UploadClick(st: UploadState, answer: Answer): (r: Click)
    ensures st.file.None? <==> r.sent.None?
    ensures st.file.None? ==> r == Click(st, None, None, false)
    ensures r.sent.Some? ==> r.sent == st.file && !r.state.loading
    ensures r.sent.Some? ==> (r.toInbox <==> answer.Answered? && Routed(answer.status))
    ensures r.sent.Some? && r.toInbox ==>
      r.state == UploadState(None, false, None, None)
      && r.notice == Some(Notice(OrElse(Some(answer.message), UploadStarted),
                                 if answer.status == "PENDING_REVIEW" then Warning else Success))
    ensures r.sent.Some? && answer.Answered? && !r.toInbox ==>
      r.state == UploadState(None, false, Some(ResultCard(answer.status, answer.message)), None)
      && r.notice.None?
    ensures r.sent.Some? && answer.Failed? ==>
      r.state == UploadState(st.file, false, None, Some(OrElse(answer.error, SendFailed)))
      && r.notice.None? && !r.toInbox
  {
    if st.file.None? then Click(st, None, None, false)
    else
      match answer
      case Answered(status, message) =>
        if Routed(status) then
          var variant := if status == "PENDING_REVIEW" then Warning else Success;
          Click(UploadState(None, false, None, None), st.file,
                Some(Notice(OrElse(Some(message), UploadStarted), variant)), true)
        else
          Click(UploadState(None, false, Some(ResultCard(status, message)), None), st.file, None, false)
      case Failed(e) =>
        Click(UploadState(st.file, false, None, Some(OrElse(e, SendFailed))), st.file, None, false)
  }

  /** `getAlertSeverity`: total over strings, "warning" by default. */
  function AlertSeverity(status: string): (c: Color)
    ensures c == Success <==> status == "SUCCESS"
    ensures c == Info <==> status == "SKIPPED"
    ensures c == Error <==> status == "FAILED"
    ensures c == Warning <==> status !in {"SUCCESS", "SKIPPED", "FAILED"}
  {
    if status == "SUCCESS" then Success
    else if status == "SKIPPED" then Info
    else if status == "PENDING_REVIEW" then Warning
    else if status == "FAILED" then Error
    else Warning
  }

  /** The result card's heading. */
  function ResultTitle(card: ResultCard): (t: string)
    ensures card.status == "SUCCESS" ==>
      t == (if Contains(Lower(card.message), "reprocessada") then "Fatura Reprocessada!" else "Fatura Importada!")
    ensures card.status !in {"SUCCESS", "SKIPPED", "PENDING_REVIEW"} ==> t == "Falha na Importação"
  {
    if card.status == "SUCCESS" then
      if Contains(Lower(card.message), "reprocessada") then "Fatura Reprocessada!" else "Fatura Importada!"
    else if card.status == "SKIPPED" then "Já Importado (Ativo)"
    else if card.status == "PENDING_REVIEW" then "Conferência Necessária"
    else "Falha na Importação"
  }

  /** A card an upload produces only ever holds an unrouted status, so its
      heading is always the failure heading and its colour red or amber. */
  lemma CardAlwaysFailure(st: UploadState, answer: Answer)
    requires st.file.Some? && UploadClick(st, answer).state.result.Some?
    ensures var card := UploadClick(st, answer).state.result.value;
      ResultTitle(card) == "Falha na Importação" && AlertSeverity(card.status) in {Error, Warning}
  {
    assert answer.Answered? && !Routed(answer.status);
    assert answer.status !in {"SUCCESS", "SKIPPED", "PENDING_REVIEW"};
  }

  /** The shapes of the upload view's replies the screen relies on. */
  predicate UploadReplyShape(reply: InvoiceViews.Reply) {
    (reply.code == 202 ==> reply.body.UploadAccepted? && reply.body.status == "PROCESSING" && reply.body.message != "")
    && (reply.body.ErrorMessage? ==> reply.code in {400, 500})
    && (reply.code in {401, 403} ==> reply.body.Detail?)
  }

  /** Every reply of the upload view has one of those shapes. */
  lemma UploadReplies(db: Db, actor: Actor, upload: Option<InvoiceViews.Upload>, now: Moment)
    requires Valid(db) && IsValidMoment(now)
    ensures UploadReplyShape(InvoiceViews.UploadView(db, actor, upload, now).reply)
  {
  }

  /** How the screen reacts to a reply of those shapes. */
  lemma ClickOnReply(reply: InvoiceViews.Reply, st: UploadState)
    requires st.file.Some? && UploadReplyShape(reply)
    ensures var c := UploadClick(st, Read(reply));
      (reply.code == 202 ==> c.toInbox && c.notice.Some? && c.notice.value.variant == Success
                             && c.notice.value.message == reply.body.message)
      && (reply.body.ErrorMessage? ==> c.state.error == Some(OrElse(Some(reply.body.error), SendFailed)))
      && (reply.code in {401, 403} ==> c.state.error == Some(SendFailed))
  {
  }

  /** Against the upload view: every accepted upload sends the user to the
      inbox with the view's own message; every refusal with an error body
      shows that error (the default when it is empty), and a refused
      permission the fixed default. */
  lemma UploadViewOutcomes(db: Db, actor: Actor, upload: Option<InvoiceViews.Upload>, now: Moment,
                           st: UploadState)
    requires Valid(db) && IsValidMoment(now) && st.file.Some?
    ensures var reply := InvoiceViews.UploadView(db, actor, upload, now).reply;
      var c := UploadClick(st, Read(reply));
      (reply.code == 202 ==> c.toInbox && c.notice.Some? && c.notice.value.variant == Success
                             && c.notice.value.message == reply.body.message)
      && (reply.body.ErrorMessage? ==> c.state.error == Some(OrElse(Some(reply.body.error), SendFailed)))
      && (reply.code in {401, 403} ==> c.state.error == Some(SendFailed))
  {
    UploadReplies(db, actor, upload, now);
    ClickOnReply(InvoiceViews.UploadView(db, actor, upload, now).reply, st);
  }
}
