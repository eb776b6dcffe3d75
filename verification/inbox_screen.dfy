/** `InboxList`: the review inbox. It shows the server's inbox items with a
    status or score chip, offers review and download for the items awaiting
    review, and sends the reviewer's corrections to the confirm endpoint. */
module InboxScreen {
  import opened Wrappers
  import opened Dates
  import opened Money
  import Invoices
  import opened ClientUi
  import InvoiceViews
  import InvoiceInbox
  import InvoiceReviewer

  type Item = InvoiceViews.InboxItem

  // ---- the score chip ----

  /** `getScoreColor`. */
  function ScoreColor(score: int): (c: Color)
    ensures c == Success <==> score >= 80
    ensures c == Warning <==> 50 <= score < 80
    ensures c == Error <==> score < 50
  {
    if score >= 80 then Success
    else if score >= 50 then Warning
    else Error
  }

  /** The order of the bands, worst first. */
  function Band(c: Color): nat {
    match c
    case Error => 0
    case Warning => 1
    case _ => 2
  }

  /** A higher score never gets a worse colour. */
  lemma ScoreColorMonotone(a: int, b: int)
    requires a <= b
    ensures Band(ScoreColor(a)) <= Band(ScoreColor(b))
  {
  }

  /** What the score column shows for an item. */
  datatype ScoreCell =
    | Spinner
    | FailureChip(error: string, code: string)
    | DuplicateChip
    | ScoreChip(score: int, color: Color)

  /** The score column: in progress first, then failure with its message and
      code, then duplicate, else the score chip. */
  function ScoreCellOf(item: Item): (c: ScoreCell)
    ensures c.Spinner? <==> item.status in {"PROCESSING", "OCR_RUNNING"}
    ensures c.FailureChip? <==> item.status == "FAILED"
    ensures c.DuplicateChip? <==> item.status == "SKIPPED"
    ensures c.ScoreChip? ==> c == ScoreChip(item.confidence, ScoreColor(item.confidence))
    ensures c.FailureChip? ==>
      c.error == OrElse(item.errorMessage, "N/A") && c.code == OrElse(item.errorCode, "UNKNOWN")
  {
    if item.status == "PROCESSING" || item.status == "OCR_RUNNING" then Spinner
    else if item.status == "FAILED" then
      FailureChip(OrElse(item.errorMessage, "N/A"), OrElse(item.errorCode, "UNKNOWN"))
    else if item.status == "SKIPPED" then DuplicateChip
    else ScoreChip(item.confidence, ScoreColor(item.confidence))
  }

  // ---- the action column ----

  datatype ActionCell = ReviewButtons | Caption(text: string)

  const WaitCaption: string := "Aguarde..."

  /** Review and download are offered exactly for INBOX and PENDING_REVIEW;
      otherwise a caption, the error for a failed item. */
  function ActionCellOf(item: Item): (c: ActionCell)
    ensures c.ReviewButtons? <==> item.status in {"INBOX", "PENDING_REVIEW"}
    ensures c.Caption? && item.status == "FAILED" ==>
      c.text == OrElse(item.errorMessage, "Erro no processamento")
    ensures c.Caption? && item.status != "FAILED" ==> c.text == WaitCaption
  {
    if item.status == "INBOX" || item.status == "PENDING_REVIEW" then ReviewButtons
    else if item.status == "FAILED" then Caption(OrElse(item.errorMessage, "Erro no processamento"))
    else Caption(WaitCaption)
  }

  /** For an item the server lists, the cells follow the record's status:
      review for INBOX and PENDING_REVIEW, the spinner while a job runs, the
      failure chip for FAILED, the duplicate chip for SKIPPED. */
  lemma CellsFollowRecord(id: nat, rec: Invoices.InvoiceImport)
    ensures var item := InvoiceInbox.ItemOf(id, rec);
      (ActionCellOf(item).ReviewButtons? <==> rec.status in {Invoices.Inbox, Invoices.PendingReview})
      && (ScoreCellOf(item).Spinner? <==> rec.status in {Invoices.Processing, Invoices.OcrRunning})
      && (ScoreCellOf(item).FailureChip? <==> rec.status == Invoices.Failed)
      && (ScoreCellOf(item).DuplicateChip? <==> rec.status == Invoices.Skipped)
  {
    var item := InvoiceInbox.ItemOf(id, rec);
    assert item.status == Invoices.ImportStatusName(rec.status);
  }

  /** A job the inbox's rescue times out shows as a failure with the
      timeout message and code. */
  lemma RescuedShowsTimeout(id: nat, rec: Invoices.InvoiceImport, now: Moment)
    requires Invoices.WellFormedImport(rec) && IsValidMoment(now) && InvoiceInbox.IsStale(rec, now)
    ensures ScoreCellOf(InvoiceInbox.ItemOf(id, InvoiceInbox.Rescued(rec, now)))
            == FailureChip(InvoiceInbox.TimeoutMessage, Invoices.TimeoutError)
  {
    var item := InvoiceInbox.ItemOf(id, InvoiceInbox.Rescued(rec, now));
    assert item.status == Invoices.ImportStatusName(Invoices.Failed);
  }

  // ---- the review dialog ----

  /** The dialog's working copy of the four editable fields. `totalValue`
      is None when the typed text is not a number (`parseFloat` gives NaN,
      which the request body writes as null). */
  datatype Draft = Draft(totalValue: Option<real>, dueDate: string, invoiceNumber: Option<string>,
                         carrier: string)

  /** The low-confidence warning of the dialog. */
  predicate LowConfidence(item: Item) {
    item.confidence < 50
  }

  /** The warning is shown exactly for the items whose chip is red. */
  lemma WarningMatchesChip(item: Item)
    ensures LowConfidence(item) <==> ScoreColor(item.confidence) == Error
  {
  }

  /** The total field's error flag: a zero total is marked, nothing more. */
  predicate ZeroTotalFlag(d: Draft) {
    d.totalValue == Some(0.0)
  }

  /** `handleOpenReview`: the dialog's copy of the item, a missing due date
      becoming "". */
  function Snapshot(item: Item): (d: Draft)
    requires item.dueDate.Some? ==> IsValid(item.dueDate.value)
    ensures d.totalValue == Some(item.totalValue)
    ensures d.invoiceNumber == item.invoiceNumber && d.carrier == item.carrier
    ensures item.dueDate.None? <==> d.dueDate == ""
    ensures item.dueDate.Some? ==> ParseIso(d.dueDate) == item.dueDate
  {
    Draft(Some(item.totalValue), InvoiceReviewer.DueText(item.dueDate), item.invoiceNumber, item.carrier)
  }

  /** The confirm request's body as the server reads it: `numberText` is how
      the total's number is written in the JSON. */
  function Payload(d: Draft, numberText: string): (sub: InvoiceReviewer.Submitted)
    ensures sub.totalValue.Some? <==> d.totalValue.Some?
    ensures sub.totalValue.Some? ==> sub.totalValue.value.value == d.totalValue.value
    ensures sub.dueDate == Some(d.dueDate) && sub.carrier == Some(d.carrier)
    ensures sub.invoiceNumber == d.invoiceNumber
  {
    InvoiceReviewer.Submitted(
      if d.totalValue.Some? then Some(InvoiceReviewer.NumberInput(numberText, d.totalValue.value)) else None,
      Some(d.dueDate), d.invoiceNumber, Some(d.carrier))
  }

  /** A dialog confirmed without touching a field sends what the confirm
      logic calls an untouched submission: the due date, the number and the
      carrier never count as edits; only the total's written form can. */
  lemma UntouchedReviewSendsRecord(id: nat, rec: Invoices.InvoiceImport, numberText: string)
    requires Invoices.WellFormedImport(rec)
    ensures var sub := Payload(Snapshot(InvoiceInbox.ItemOf(id, rec)), numberText);
      sub == InvoiceReviewer.Untouched(rec, numberText)
      && !InvoiceReviewer.DueEdited(rec, sub)
      && !InvoiceReviewer.NumberEdited(rec, sub) && !InvoiceReviewer.CarrierEdited(rec, sub)
  {
    var item := InvoiceInbox.ItemOf(id, rec);
    assert item.totalValue == CentsValue(rec.totalValue.GetOr(0));
  }

  // ---- the screen ----

  /** The screen's state: the listed items, the spinner, the item under
      review and the dialog's copy of it. */
  datatype Screen = Screen(items: seq<Item>, loading: bool, review: Option<Item>, draft: Draft)

  const LoadFailed: string := "Falha ao carregar inbox."

  /** `loadData(silent)` once the fetch has answered: the items are replaced
      on success; a silent refresh never shows an error nor touches the
      spinner; the dialog is left alone either way. */
  function Refresh(st: Screen, silent: bool, reply: Option<seq<Item>>): (r: (Screen, Option<Notice>))
    ensures r.0.review == st.review && r.0.draft == st.draft
    ensures r.0.items == (if reply.Some? then reply.value else st.items)
    ensures r.0.loading == (if silent then st.loading else false)
    ensures r.1.Some? <==> !silent && reply.None?
    ensures r.1.Some? ==> r.1.value == Notice(LoadFailed, Error)
  {
    var items := if reply.Some? then reply.value else st.items;
    var notice := if !silent && reply.None? then Some(Notice(LoadFailed, Error)) else None;
    (st.(items := items, loading := if silent then st.loading else false), notice)
  }

  /** Opening the dialog on an item. */
  function OpenReview(st: Screen, item: Item): (r: Screen)
    requires item.dueDate.Some? ==> IsValid(item.dueDate.value)
    ensures r.review == Some(item) && r.draft == Snapshot(item)
    ensures r.items == st.items && r.loading == st.loading
  {
    st.(review := Some(item), draft := Snapshot(item))
  }

  /** The request a confirm click sends: the reviewed item's id and the draft. */
  datatype ConfirmRequest = ConfirmRequest(id: nat, draft: Draft)

  const ConfirmedNotice: string := "Fatura confirmada com sucesso!"
  const ConfirmFailed: string := "Erro ao confirmar fatura."

  /** `handleConfirm`: nothing without an item under review; otherwise the
      request is sent whatever the draft holds (a zero total included); on
      success the dialog closes and the list reloads, on failure it stays. */
  function ConfirmClick(st: Screen, ok: bool): (r: (Screen, Option<ConfirmRequest>, Option<Notice>, bool))
    ensures st.review.None? <==> r.1.None?
    ensures st.review.None? ==> r == (st, None, None, false)
    ensures r.1.Some? ==> r.1.value == ConfirmRequest(st.review.value.id, st.draft)
    ensures r.1.Some? ==> (r.3 <==> ok) && r.2.Some?
    ensures r.1.Some? && ok ==> r.0 == st.(review := None) && r.2.value == Notice(ConfirmedNotice, Success)
    ensures r.1.Some? && !ok ==> r.0 == st && r.2.value == Notice(ConfirmFailed, Error)
  {
    if st.review.None? then (st, None, None, false)
    else
      var req := Some(ConfirmRequest(st.review.value.id, st.draft));
      if ok then (st.(review := None), req, Some(Notice(ConfirmedNotice, Success)), true)
      else (st, req, Some(Notice(ConfirmFailed, Error)), false)
  }

  /** A zero total is flagged and still sent. */
  lemma ZeroTotalNotBlocking(st: Screen, ok: bool)
    requires st.review.Some? && ZeroTotalFlag(st.draft)
    ensures ConfirmClick(st, ok).1 == Some(ConfirmRequest(st.review.value.id, st.draft))
  {
  }
}
