/** The report governance state machine (`ReportWorkflowService`): a fixed
    transition table, a comment required to cancel, and one audit entry per
    successful transition. */
module Workflow {
  import opened Wrappers
  import opened Text
  import opened Dates
  import opened Users
  import opened Audit
  import opened Reports
  import opened Database

  /** `ALLOWED_TRANSITIONS[current]`, in the source's order. */
  function AllowedTargets(s: ReportStatus): (targets: seq<ReportStatus>)
    ensures s !in targets
  {
    match s
    case Pending => [Review, Canceled]
    case Review => [Approved, Canceled, Pending]
    case Approved => []
    case Canceled => []
    case Failed => [Pending, Review]
  }

  predicate CanTransition(from: ReportStatus, to: ReportStatus) {
    to in AllowedTargets(from)
  }

  /** The table in full: exactly seven moves are allowed. */
  lemma TransitionTable(from: ReportStatus, to: ReportStatus)
    ensures CanTransition(from, to) <==>
      (from, to) in {(Pending, Review), (Pending, Canceled),
                     (Review, Approved), (Review, Canceled), (Review, Pending),
                     (Failed, Pending), (Failed, Review)}
  {
  }

  /** APPROVED and CANCELED are final; no status moves to itself. */
  lemma FinalStates(to: ReportStatus)
    ensures !CanTransition(Approved, to) && !CanTransition(Canceled, to)
    ensures !CanTransition(to, to)
  {
  }

  /** The audit action recorded for a move to `to`. */
  function AuditActionFor(to: ReportStatus): (a: Action)
    ensures a == Approve <==> to == Approved
    ensures a == Reject <==> to == Canceled
    ensures a == Update <==> to != Approved && to != Canceled
  {
    if to == Approved then Approve
    else if to == Canceled then Reject
    else Update
  }

  /** Python truthiness of an optional string: present and non-empty. */
  predicate Truthy(s: Option<string>) {
    s.Some? && s.value != ""
  }

  datatype WorkflowError = InvalidTransition(message: string) | CommentRequired(message: string)

  const CommentRequiredMessage: string := "Comentário é obrigatório ao rejeitar/cancelar um relatório."

  function InvalidTransitionMessage(current: ReportStatus, requested: string): string {
    "Transição inválida de '" + StatusName(current) + "' para '" + requested + "'."
  }

  /** The after-state snapshot: the report's fields, plus the comment when it
      is truthy. */
  function AfterState(id: nat, r: Report, comment: Option<string>): (d: Dict<Value>)
    requires WellFormedReport(r)
    ensures Serializable(d)
    ensures Lookup(d, "_workflow_comment") == (if Truthy(comment) then Some(Str(comment.value)) else None)
  {
    var base := ReportDict(id, r);
    if Truthy(comment) then
      AssignLookup(base, "_workflow_comment", Str(comment.value), "");
      var d := Assign(base, "_workflow_comment", Str(comment.value));
      AssignSerializable(base, "_workflow_comment", Str(comment.value));
      d
    else base
  }

  /** The successful branch of `transition_status`: the report takes the new
      status and one audit entry is appended. */
  function ApplyTransition(db: Db, id: nat, target: ReportStatus, actor: Actor,
                           comment: Option<string>, now: Moment): (r: Db)
    requires Valid(db) && id in db.reports
    ensures Valid(r)
    ensures r.reports == db.reports[id := db.reports[id].(status := target)]
    ensures r.imports == db.imports && r.categories == db.categories
    ensures |r.log| == |db.log| + 1 && r.log[..|db.log|] == db.log
  {
    var report := db.reports[id];
    var updated := report.(status := target);
    var db1 := SaveReport(db, id, updated);
    var before := ReportDict(id, report);
    var after := AfterState(id, updated, comment);
    var log := LogAction(db.log, actor, AuditActionFor(target), "Report", id,
                         Some(before), Some(after), Some("Report"), now);
    WithLog(db1, log)
  }

  /** `transition_status(report, new_status, user, comment)`. The requested
      status is checked against the table first, then the comment; on success
      the report takes the new status and one audit entry is appended. */
  function TransitionStatus(db: Db, id: nat, newStatus: string, actor: Actor,
                            comment: Option<string>, now: Moment): (r: Result<Db, WorkflowError>)
    requires Valid(db) && id in db.reports
    ensures r.Err? && r.error.InvalidTransition? <==>
      ParseStatus(newStatus).None? || !CanTransition(db.reports[id].status, ParseStatus(newStatus).value)
    ensures r.Err? && r.error.CommentRequired? <==>
      ParseStatus(newStatus) == Some(Canceled) && CanTransition(db.reports[id].status, Canceled)
      && !Truthy(comment)
    ensures r.Ok? ==>
      (ParseStatus(newStatus).Some?
       && r.value == ApplyTransition(db, id, ParseStatus(newStatus).value, actor, comment, now))
  {
    var report := db.reports[id];
    var target := ParseStatus(newStatus);
    if target.None? || !CanTransition(report.status, target.value) then
      Err(InvalidTransition(InvalidTransitionMessage(report.status, newStatus)))
    else if target.value == Canceled && !Truthy(comment) then
      Err(CommentRequired(CommentRequiredMessage))
    else
      Ok(ApplyTransition(db, id, target.value, actor, comment, now))
  }

  /** The single entry a successful transition writes: the action for the
      target, entity "Report" with the report's id, the before and after
      snapshots, and the comment in the after state exactly when it is truthy. */
  lemma TransitionAudit(db: Db, id: nat, newStatus: string, actor: Actor,
                        comment: Option<string>, now: Moment)
    requires Valid(db) && id in db.reports
    requires TransitionStatus(db, id, newStatus, actor, comment, now).Ok?
    ensures var db' := TransitionStatus(db, id, newStatus, actor, comment, now).value;
      var e := db'.log[|db.log|];
      e.action == AuditActionFor(ParseStatus(newStatus).value)
      && e.entity == "Report" && e.entityId == IntToString(id) && e.createdAt == now
      && e.before.Some? && e.after.Some?
      && Lookup(e.before.value, "status") == Some(JString(StatusName(db.reports[id].status)))
      && Lookup(e.after.value, "status") == Some(JString(newStatus))
      && Lookup(e.after.value, "_workflow_comment")
         == (if Truthy(comment) then Some(JString(comment.value)) else None)
  {
    var report := db.reports[id];
    var updated := report.(status := ParseStatus(newStatus).value);
    var after := AfterState(id, updated, comment);
    SerializeLookup(ReportDict(id, report), "status");
    SerializeLookup(after, "status");
    SerializeLookup(after, "_workflow_comment");
    if Truthy(comment) {
      AssignLookup(ReportDict(id, updated), "_workflow_comment", Str(comment.value), "status");
    }
  }

  /** The table is checked before the comment: an illegal move to CANCELED
      without a comment reports the invalid transition. */
  lemma TableBeforeComment(db: Db, id: nat, actor: Actor, now: Moment)
    requires Valid(db) && id in db.reports && !CanTransition(db.reports[id].status, Canceled)
    ensures TransitionStatus(db, id, "CANCELED", actor, None, now)
            == Err(InvalidTransition(InvalidTransitionMessage(db.reports[id].status, "CANCELED")))
  {
  }

  /** The comment check is falsiness only: a whitespace comment cancels. */
  lemma WhitespaceCommentCancels(db: Db, id: nat, actor: Actor, now: Moment)
    requires Valid(db) && id in db.reports && db.reports[id].status in {Pending, Review}
    ensures TransitionStatus(db, id, "CANCELED", actor, Some(" "), now).Ok?
  {
  }
}
