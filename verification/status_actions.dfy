/** `ReportStatusActions`: the per-row action menu of the reports list, its
    rejection dialog, and what a transition attempt does to the component's
    state. */
module StatusActions {
  import opened Wrappers
  import opened Text
  import opened Dates
  import opened Users
  import opened Reports
  import opened Database
  import opened ClientUi
  import Workflow

  /** A menu entry: a direct move, the entry that opens the rejection dialog
      (its move is to CANCELED), or the history entry. */
  datatype MenuAction =
    | Move(caption: string, target: ReportStatus)
    | OpenReject(caption: string)
    | ShowHistory(caption: string)

  const RejectLabel: string := "Rejeitar / Cancelar"
  const HistoryLabel: string := "Ver Histórico"

  /** The status a non-history entry asks the server for. */
  function Target(a: MenuAction): Option<ReportStatus> {
    match a
    case Move(_, t) => Some(t)
    case OpenReject(_) => Some(Canceled)
    case ShowHistory(_) => None
  }

  /** The menu built for a report in status `s`. */
  function Actions(s: ReportStatus): (r: seq<MenuAction>)
    ensures |r| >= 1 && r[|r| - 1] == ShowHistory(HistoryLabel)
    ensures forall i :: 0 <= i < |r| - 1 ==> Target(r[i]).Some?
    ensures forall i :: 0 <= i < |r| - 1 ==> Workflow.CanTransition(s, Target(r[i]).value)
    ensures forall i :: 0 <= i < |r| ==> (r[i].Move? ==> r[i].target != Canceled)
  {
    var moves :=
      match s
      case Pending => [Move("Enviar para Análise", Review), OpenReject(RejectLabel)]
      case Review => [Move("Aprovar", Approved), OpenReject(RejectLabel)]
      case Failed => [Move("Reiniciar Análise", Review)]
      case Approved => []
      case Canceled => [];
    moves + [ShowHistory(HistoryLabel)]
  }

  /** The statuses the menu offers, in menu order. */
  function Offered(s: ReportStatus): (ts: seq<ReportStatus>)
    ensures |ts| == |Actions(s)| - 1
    ensures forall i :: 0 <= i < |ts| ==> Some(ts[i]) == Target(Actions(s)[i])
  {
    var acts := Actions(s);
    seq(|acts| - 1, i requires 0 <= i < |acts| - 1 => Target(acts[i]).value)
  }

  /** The menu for each status: PENDING and REVIEW offer their forward move
      and CANCELED, FAILED only REVIEW, the final statuses nothing. */
  lemma MenuByStatus()
    ensures Offered(Pending) == [Review, Canceled]
    ensures Offered(Review) == [Approved, Canceled]
    ensures Offered(Failed) == [Review]
    ensures Offered(Approved) == [] && Offered(Canceled) == []
  {
  }

  /** The menu never offers what the server table forbids; it offers a
      subset of it, leaving out REVIEW to PENDING and FAILED to PENDING. */
  lemma MenuWithinServerTable(s: ReportStatus, t: ReportStatus)
    ensures t in Offered(s) ==> t in Workflow.AllowedTargets(s)
    ensures t in Workflow.AllowedTargets(s) && t !in Offered(s) <==> t == Pending && s in {Review, Failed}
  {
    var ts := Offered(s);
    if t in ts {
      var i :| 0 <= i < |ts| && ts[i] == t;
      assert Target(Actions(s)[i]) == Some(t);
    }
    MenuByStatus();
  }

  /** The component's own state: the open menu, the rejection dialog and the
      comment typed into it. */
  datatype UiState = UiState(menuOpen: bool, rejectOpen: bool, comment: string)

  /** A `transitionReportStatus(id, status, comment)` call. */
  datatype Request = Request(reportId: nat, status: ReportStatus, comment: Option<string>)

  /** The effect of one user action: the next state, the request sent if any,
      the notice shown if any, and whether the parent is asked to refetch or
      to open the history. */
  datatype Step = Step(state: UiState, request: Option<Request>, notice: Option<Notice>,
                       refetch: bool, history: bool)

  const SuccessMessage: string := "Status atualizado com sucesso."
  const FailureDefault: string := "Erro ao atualizar status."
  const CommentMissing: string := "Comentário é obrigatório para rejeição."

  /** `handleTransition`: one request; `reply` is the server's answer, an
      error carrying the body's `error` field when there is one. Whatever the
      answer, the menu and dialog close and the comment is cleared. */
  function HandleTransition(st: UiState, id: nat, target: ReportStatus, comment: Option<string>,
                            reply: Result<(), Option<string>>): (r: Step)
    ensures r.state == UiState(false, false, "")
    ensures r.request == Some(Request(id, target, comment))
    ensures r.refetch <==> reply.Ok?
    ensures !r.history && r.notice.Some?
    ensures reply.Ok? ==> r.notice.value == Notice(SuccessMessage, Success)
    ensures reply.Err? ==> (r.notice.value.variant == Error
      && (r.notice.value.message == FailureDefault || Some(r.notice.value.message) == reply.error))
    ensures reply.Err? && reply.error.Some? && reply.error.value != "" ==>
      r.notice.value.message == reply.error.value
  {
    var notice :=
      match reply
      case Ok(_) => Notice(SuccessMessage, Success)
      case Err(e) => Notice(if e.Some? && e.value != "" then e.value else FailureDefault, Error);
    Step(UiState(false, false, ""), Some(Request(id, target, comment)), Some(notice), reply.Ok?, false)
  }

  /** `submitRejection`: a comment that is blank once trimmed only warns;
      otherwise CANCELED is requested with the comment as typed. */
  function SubmitRejection(st: UiState, id: nat, reply: Result<(), Option<string>>): (r: Step)
    ensures JsTrim(st.comment) == "" <==> r.request.None?
    ensures r.request.None? ==>
      r == Step(st, None, Some(Notice(CommentMissing, Warning)), false, false)
    ensures r.request.Some? ==>
      r == HandleTransition(st, id, Canceled, Some(st.comment), reply)
      && Workflow.Truthy(r.request.value.comment)
  {
    if JsTrim(st.comment) == "" then Step(st, None, Some(Notice(CommentMissing, Warning)), false, false)
    else HandleTransition(st, id, Canceled, Some(st.comment), reply)
  }

  /** Clicking a menu entry: a move is requested at once without a comment,
      the rejection entry opens the dialog, the history entry asks the parent
      to show the history; the menu closes in every case. */
  function Choose(st: UiState, id: nat, a: MenuAction, reply: Result<(), Option<string>>): (r: Step)
    ensures !r.state.menuOpen
    ensures a.Move? <==> r.request.Some?
    ensures r.request.Some? ==> r.request.value == Request(id, a.target, None)
    ensures a.OpenReject? ==> r.state == st.(menuOpen := false, rejectOpen := true) && r.notice.None?
    ensures r.history <==> a.ShowHistory?
  {
    match a
    case Move(_, t) => HandleTransition(st, id, t, None, reply)
    case OpenReject(_) => Step(st.(menuOpen := false, rejectOpen := true), None, None, false, false)
    case ShowHistory(_) => Step(st.(menuOpen := false), None, None, false, true)
  }

  /** What the menu sends is what the server accepts: for a report whose
      status is the one the menu was built from, a direct move passes both
      the table and the comment check, and so does a rejection whose comment
      is not blank. */
  lemma ClientRequestsAccepted(db: Db, id: nat, a: MenuAction, comment: string, actor: Actor,
                               now: Moment)
    requires Valid(db) && id in db.reports && a in Actions(db.reports[id].status)
    requires !a.ShowHistory?
    ensures a.Move? ==>
      Workflow.TransitionStatus(db, id, StatusName(a.target), actor, None, now).Ok?
    ensures a.OpenReject? && JsTrim(comment) != "" ==>
      Workflow.TransitionStatus(db, id, "CANCELED", actor, Some(comment), now).Ok?
  {
    var acts := Actions(db.reports[id].status);
    var i :| 0 <= i < |acts| && acts[i] == a;
    assert i < |acts| - 1;
    var t := Target(a).value;
    assert Workflow.CanTransition(db.reports[id].status, t);
    StatusNameRoundTrip(t);
    if a.OpenReject? && JsTrim(comment) != "" {
      assert comment != "";
      assert "CANCELED" == StatusName(t);
    }
  }

  /** The server's check is weaker than the dialog's: a comment of spaces
      is refused here but accepted there. */
  lemma BlankCommentOnlyBlockedHere(st: UiState, id: nat, reply: Result<(), Option<string>>)
    requires st.comment == " "
    ensures SubmitRejection(st, id, reply).request.None?
    ensures Workflow.Truthy(Some(st.comment))
  {
    assert IsJsWhitespace(st.comment[0]);
  }
}
