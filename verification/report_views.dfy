/** `ReportViewSet`: per-action permissions, the create/update/destroy hooks
    that write audit entries, the transition endpoint and the history view. */
module ReportViews {
  import opened Wrappers
  import opened Text
  import opened Dates
  import opened Users
  import opened Audit
  import opened Reports
  import opened Database
  import opened Workflow

  /** `get_permissions`: the permission class guarding each view action. */
  function RequiredPermission(action: string): (p: Permission)
    ensures action in {"list", "retrieve", "history"} ==> p == IsViewer
    ensures action in {"create", "update", "partial_update", "transition"} ==> p == IsAnalyst
    ensures action == "destroy" ==> p == IsAdmin
    ensures (action !in {"list", "retrieve", "history", "create", "update", "partial_update",
                         "transition", "destroy"}) ==> p == IsAuthenticated
  {
    if action in ["list", "retrieve", "history"] then IsViewer
    else if action in ["create", "update", "partial_update"] then IsAnalyst
    else if action == "destroy" then IsAdmin
    else if action == "transition" then IsAnalyst
    else IsAuthenticated
  }

  /** Only administrators delete reports, and every role that may change a
      report may also read it. */
  lemma PermissionPolicy(a: Actor)
    ensures HasPermission(RequiredPermission("destroy"), a) <==> a.Authenticated? && a.user.role == Admin
    ensures HasPermission(RequiredPermission("transition"), a) ==> HasPermission(RequiredPermission("list"), a)
    ensures HasPermission(RequiredPermission("update"), a) == HasPermission(RequiredPermission("transition"), a)
  {
  }

  // ---- create / update / destroy ----

  /** Fields sent to a create or an update; an absent field is `None`. The
      dates, the status and the category id arrive already parsed. */
  datatype ReportInput = ReportInput(
    title: Option<string>,
    referenceDate: Option<Date>,
    category: Option<nat>,
    totalValue: Option<int>,
    status: Option<ReportStatus>,
    dueDate: Option<Option<Date>>)

  predicate InputWellFormed(input: ReportInput) {
    (input.referenceDate.Some? ==> IsValid(input.referenceDate.value))
    && (input.dueDate.Some? && input.dueDate.value.Some? ==> IsValid(input.dueDate.value.value))
  }

  /** The body of a 400 response: each failing field with its message, in
      the serializer's field order. */
  type FieldErrors = seq<(string, string)>

  const RequiredMessage: string := "This field is required."
  const BlankMessage: string := "This field may not be blank."

  /** The serializer's message for a related id with no row, quoting the id. */
  function MissingPkMessage(pk: nat): string {
    "Invalid pk \"" + NatToString(pk) + "\" - object does not exist."
  }

  function FieldError(field: string, message: Option<string>): (errs: FieldErrors)
    ensures errs == [] <==> message.None?
    ensures message.Some? ==> errs == [(field, message.value)]
  {
    if message.Some? then [(field, message.value)] else []
  }

  /** Whether a field is missing from a request that must carry it: a create
      or a full update (`PUT`), not a partial one (`PATCH`). */
  predicate MissingRequired<T>(v: Option<T>, partial: bool) {
    v.None? && !partial
  }

  /** The serializer's field validation, in its field order (the columns,
      then the category relation): a create or a full update must carry the
      title, the reference date, the total and the category; a title that is
      blank once stripped is refused; a category id must name a row. */
  function FieldValidation(db: Db, input: ReportInput, partial: bool): (errs: FieldErrors)
    ensures errs == [] <==>
      (input.title.Some? ==> PyStrip(input.title.value) != "")
      && (input.category.Some? ==> input.category.value in db.categories)
      && (!partial ==> input.title.Some? && input.referenceDate.Some?
                       && input.totalValue.Some? && input.category.Some?)
    ensures MissingRequired(input.title, partial) ==> ("title", RequiredMessage) in errs
    ensures MissingRequired(input.referenceDate, partial) ==> ("reference_date", RequiredMessage) in errs
    ensures MissingRequired(input.totalValue, partial) ==> ("total_value", RequiredMessage) in errs
    ensures MissingRequired(input.category, partial) ==> ("category", RequiredMessage) in errs
    ensures input.title.Some? && PyStrip(input.title.value) == "" ==> ("title", BlankMessage) in errs
    ensures input.category.Some? && input.category.value !in db.categories ==>
      ("category", MissingPkMessage(input.category.value)) in errs
    ensures forall e :: e in errs ==> e.0 in {"title", "reference_date", "total_value", "category"}
  {
    var title := FieldError("title", if MissingRequired(input.title, partial) then Some(RequiredMessage)
                        else if input.title.Some? && PyStrip(input.title.value) == "" then Some(BlankMessage)
                        else None);
    var date := FieldError("reference_date", if MissingRequired(input.referenceDate, partial) then Some(RequiredMessage) else None);
    var total := FieldError("total_value", if MissingRequired(input.totalValue, partial) then Some(RequiredMessage) else None);
    var category := FieldError("category", if MissingRequired(input.category, partial) then Some(RequiredMessage)
                             else if input.category.Some? && input.category.value !in db.categories
                             then Some(MissingPkMessage(input.category.value))
                             else None);
    title + date + total + category
  }

  /** The report after the serializer writes the validated fields over `r`:
      each field sent replaces the stored one (the title stripped of
      surrounding whitespace), and each field not sent is kept. */
  function ApplyInput(r: Report, input: ReportInput): (u: Report)
    ensures u.title == (if input.title.Some? then PyStrip(input.title.value) else r.title)
    ensures u.referenceDate == (if input.referenceDate.Some? then input.referenceDate.value else r.referenceDate)
    ensures u.category == (if input.category.Some? then input.category.value else r.category)
    ensures u.totalValue == (if input.totalValue.Some? then input.totalValue.value else r.totalValue)
    ensures u.status == (if input.status.Some? then input.status.value else r.status)
    ensures u.dueDate == (if input.dueDate.Some? then input.dueDate.value else r.dueDate)
  {
    Report(if input.title.Some? then PyStrip(input.title.value) else r.title,
           input.referenceDate.GetOr(r.referenceDate),
           input.category.GetOr(r.category), input.totalValue.GetOr(r.totalValue),
           input.status.GetOr(r.status), input.dueDate.GetOr(r.dueDate))
  }

  /** Sending nothing changes nothing, and sending every field gives the
      report those fields describe, whatever was stored. */
  lemma ApplyInputLaws(r: Report, s: Report)
    ensures ApplyInput(r, ReportInput(None, None, None, None, None, None)) == r
    ensures PyStrip(s.title) == s.title ==>
      ApplyInput(r, ReportInput(Some(s.title), Some(s.referenceDate), Some(s.category),
                                Some(s.totalValue), Some(s.status), Some(s.dueDate))) == s
  {
  }

  const StatusChangeMessage: string := "Changes to status are not allowed here. Use the transition endpoint."

  datatype ViewError = ValidationError(errors: FieldErrors) | NotFound | Forbidden

  /** `update` (`partial` for `PATCH`): the serializer validates first, so a
      missing required field, a blank title or an unknown category is refused
      before `perform_update` runs; there a status different from the stored
      one is refused; otherwise the fields are saved and one UPDATE entry
      records the before and after snapshots. */
  function PerformUpdate(db: Db, id: nat, input: ReportInput, partial: bool, actor: Actor, now: Moment)
    : (r: Result<Db, ViewError>)
    requires Valid(db) && id in db.reports && InputWellFormed(input)
    ensures FieldValidation(db, input, partial) != [] ==>
      r == Err(ValidationError(FieldValidation(db, input, partial)))
    ensures FieldValidation(db, input, partial) == []
            && input.status.Some? && input.status.value != db.reports[id].status ==>
      r == Err(ValidationError([("status", StatusChangeMessage)]))
    ensures r.Err? <==>
      FieldValidation(db, input, partial) != []
      || (input.status.Some? && input.status.value != db.reports[id].status)
    ensures r.Ok? ==>
      (Valid(r.value) && r.value.reports == db.reports[id := ApplyInput(db.reports[id], input)]
       && r.value.reports[id].status == db.reports[id].status
       && (input.title.Some? ==> r.value.reports[id].title != "")
       && |r.value.log| == |db.log| + 1 && r.value.log[..|db.log|] == db.log
       && r.value.log[|db.log|].action == Update && r.value.log[|db.log|].entity == "Report"
       && r.value.log[|db.log|].before == Some(Serialize(ReportDict(id, db.reports[id])))
       && r.value.log[|db.log|].after == Some(Serialize(ReportDict(id, r.value.reports[id]))))
  {
    var current := db.reports[id];
    var errs := FieldValidation(db, input, partial);
    if errs != [] then Err(ValidationError(errs))
    else if input.status.Some? && input.status.value != current.status then
      Err(ValidationError([("status", StatusChangeMessage)]))
    else
      var updated := ApplyInput(current, input);
      var db1 := SaveReport(db, id, updated);
      var log := LogAction(db.log, actor, Update, "Report", id, Some(ReportDict(id, current)),
                           Some(ReportDict(id, updated)), Some("Report"), now);
      Ok(WithLog(db1, log))
  }

  /** `perform_create`, after the serializer's validation: the new report is
      stored with the fields sent (the title stripped, the status PENDING and
      the due date empty when absent) and one entry is logged, IMPORT when the
      request path ends in `import/`, UPDATE otherwise. */
  function PerformCreate(db: Db, input: ReportInput, importPath: bool, actor: Actor, now: Moment)
    : (r: Result<(Db, nat), ViewError>)
    requires Valid(db) && InputWellFormed(input)
    ensures r.Err? <==> FieldValidation(db, input, false) != []
    ensures r.Err? ==> r.error == ValidationError(FieldValidation(db, input, false))
    ensures r.Ok? ==>
      (var (db', id) := r.value;
       input.title.Some? && input.referenceDate.Some? && input.category.Some? && input.totalValue.Some?
       && Valid(db') && id !in db.reports
       && db'.reports == db.reports[id := Report(PyStrip(input.title.value), input.referenceDate.value,
                                                 input.category.value, input.totalValue.value,
                                                 input.status.GetOr(Pending), input.dueDate.GetOr(None))]
       && db'.reports[id].title != ""
       && |db'.log| == |db.log| + 1 && db'.log[..|db.log|] == db.log
       && db'.log[|db.log|].action == (if importPath then Import else Update)
       && db'.log[|db.log|].before.None?
       && db'.log[|db.log|].after == Some(Serialize(ReportDict(id, db'.reports[id]))))
  {
    var errs := FieldValidation(db, input, false);
    if errs != [] then Err(ValidationError(errs))
    else
      var report := Report(PyStrip(input.title.value), input.referenceDate.value, input.category.value,
                           input.totalValue.value, input.status.GetOr(Pending), input.dueDate.GetOr(None));
      var (db1, id) := CreateReport(db, report);
      var log := LogAction(db.log, actor, if importPath then Import else Update, "Report", id,
                           None, Some(ReportDict(id, report)), Some("Report"), now);
      Ok((WithLog(db1, log), id))
  }

  /** `perform_destroy`: logs DELETE with the before snapshot, then deletes;
      imports that pointed at the report keep existing, unlinked. */
  function PerformDestroy(db: Db, id: nat, actor: Actor, now: Moment): (r: Db)
    requires Valid(db) && id in db.reports
    ensures Valid(r) && id !in r.reports && r.reports == db.reports - {id}
    ensures |r.imports| == |db.imports| && SourceOf(r.imports, id).None?
    ensures |r.log| == |db.log| + 1 && r.log[|db.log|].action == Delete
    ensures r.log[|db.log|].after.None? && r.log[|db.log|].before.Some?
  {
    var report := db.reports[id];
    assert WellFormedReport(report);
    var before := ReportDict(id, report);
    var db1 := DeleteReport(db, id);
    DeleteReportKeepsImports(db, id, 0);
    var log := LogAction(db.log, actor, Delete, "Report", id, Some(before), None, Some("Report"), now);
    WithLog(db1, log)
  }

  // ---- transition endpoint ----

  datatype TransitionResponse =
    | Transitioned(db: Db)
    | BadRequest(error: string)
    | Missing
    | Denied

  const StatusRequiredMessage: string := "Status is required."

  /** `POST /reports/{id}/transition/`: permission, then the report lookup,
      then a missing or empty status (400) before the service is called; the
      service's validation errors become 400 with their message. */
  function TransitionEndpoint(db: Db, id: nat, status: Option<string>, comment: Option<string>,
                              actor: Actor, now: Moment): (r: TransitionResponse)
    requires Valid(db)
    ensures r.Denied? <==> !HasPermission(IsAnalyst, actor)
    ensures r.Missing? <==> HasPermission(IsAnalyst, actor) && id !in db.reports
    ensures HasPermission(IsAnalyst, actor) && id in db.reports && !Truthy(status) ==>
      r == BadRequest(StatusRequiredMessage)
    ensures r.Transitioned? ==>
      (id in db.reports && Truthy(status)
       && TransitionStatus(db, id, status.value, actor, comment, now) == Ok(r.db))
    ensures (HasPermission(IsAnalyst, actor) && id in db.reports && Truthy(status)
             && TransitionStatus(db, id, status.value, actor, comment, now).Err?) ==>
      r == BadRequest(TransitionStatus(db, id, status.value, actor, comment, now).error.message)
  {
    if !HasPermission(RequiredPermission("transition"), actor) then Denied
    else if id !in db.reports then Missing
    else if !Truthy(status) then BadRequest(StatusRequiredMessage)
    else
      match TransitionStatus(db, id, status.value, actor, comment, now)
      case Ok(db') => Transitioned(db')
      case Err(e) => BadRequest(e.message)
  }

  // ---- history ----

  datatype HistoryItem = HistoryItem(
    id: nat,
    action: string,
    user: string,
    createdAt: Moment,
    comment: Option<Json>,
    changes: Option<Dict<Json>>)

  /** One history line for the log entry at position `i`. */
  function HistoryLine(i: nat, e: AuditEntry): (h: HistoryItem)
    ensures h.id == i && h.createdAt == e.createdAt && h.changes == e.after
    ensures h.user == (if e.user.Some? then e.user.value.username else "System")
    ensures e.after.None? ==> h.comment.None?
    ensures e.after.Some? ==> h.comment == Lookup(e.after.value, "_workflow_comment")
  {
    HistoryItem(i, ActionDisplay(e.action),
                if e.user.Some? then e.user.value.username else "System",
                e.createdAt,
                if e.after.Some? then Lookup(e.after.value, "_workflow_comment") else None,
                e.after)
  }

  predicate AboutReport(e: AuditEntry, pk: nat) {
    e.entity == "Report" && e.entityId == IntToString(pk)
  }

  /** Positions below `n` of the log entries that satisfy `about`, newest
      first. */
  function MatchingBelow(log: seq<AuditEntry>, about: AuditEntry -> bool, n: nat): (ids: seq<nat>)
    requires n <= |log|
    ensures forall k :: 0 <= k < |ids| ==> ids[k] < n && about(log[ids[k]])
    ensures forall k, m :: 0 <= k < m < |ids| ==> ids[k] > ids[m]
    ensures forall i :: 0 <= i < n && about(log[i]) ==> i in ids
  {
    if n == 0 then []
    else
      var rest := MatchingBelow(log, about, n - 1);
      if about(log[n - 1]) then [n - 1] + rest else rest
  }

  /** Positions of the log entries about report `pk`, newest first (the log
      is appended in time order, so `-created_at` is reverse position). */
  function MatchingIds(log: seq<AuditEntry>, pk: nat): (ids: seq<nat>)
    ensures forall k :: 0 <= k < |ids| ==> ids[k] < |log| && AboutReport(log[ids[k]], pk)
    ensures forall k, m :: 0 <= k < m < |ids| ==> ids[k] > ids[m]
    ensures forall i :: 0 <= i < |log| && AboutReport(log[i], pk) ==> i in ids
  {
    MatchingBelow(log, e => AboutReport(e, pk), |log|)
  }

  /** The history lines of the entries at positions `ids`, in that order. */
  function Lines(log: seq<AuditEntry>, ids: seq<nat>): (items: seq<HistoryItem>)
    requires forall k :: 0 <= k < |ids| ==> ids[k] < |log|
    ensures |items| == |ids|
    ensures forall k :: 0 <= k < |ids| ==> items[k] == HistoryLine(ids[k], log[ids[k]])
  {
    seq(|ids|, k requires 0 <= k < |ids| => HistoryLine(ids[k], log[ids[k]]))
  }

  /** `history`: one line per log entry about report `pk`, newest first;
      each line describes its own entry. */
  function History(log: seq<AuditEntry>, pk: nat): (items: seq<HistoryItem>)
    ensures forall k :: 0 <= k < |items| ==>
      items[k].id < |log| && AboutReport(log[items[k].id], pk)
      && items[k] == HistoryLine(items[k].id, log[items[k].id])
    ensures forall k, m :: 0 <= k < m < |items| ==> items[k].id > items[m].id
    ensures forall i :: 0 <= i < |log| && AboutReport(log[i], pk) ==>
      exists k :: 0 <= k < |items| && items[k].id == i
  {
    var ids := MatchingIds(log, pk);
    var items := Lines(log, ids);
    assert forall k :: 0 <= k < |items| ==> items[k].id == ids[k];
    assert forall i :: 0 <= i < |log| && AboutReport(log[i], pk) ==>
      exists k :: 0 <= k < |items| && items[k].id == i by {
      forall i | 0 <= i < |log| && AboutReport(log[i], pk)
        ensures exists k :: 0 <= k < |items| && items[k].id == i
      {
        var k :| 0 <= k < |ids| && ids[k] == i;
        assert items[k].id == i;
      }
    }
    items
  }

  /** Right after a successful transition, the report's history starts with
      the entry it wrote, carrying the comment exactly when it was truthy. */
  lemma {:induction false} HistoryAfterTransition(db: Db, id: nat, newStatus: string, actor: Actor,
                                                  comment: Option<string>, now: Moment)
    requires Valid(db) && id in db.reports
    requires TransitionStatus(db, id, newStatus, actor, comment, now).Ok?
    ensures var db' := TransitionStatus(db, id, newStatus, actor, comment, now).value;
      var h := History(db'.log, id);
      |h| >= 1 && h[0] == HistoryLine(|db.log|, db'.log[|db.log|])
      && h[0].action == ActionDisplay(AuditActionFor(ParseStatus(newStatus).value))
      && h[0].comment == (if Truthy(comment) then Some(JString(comment.value)) else None)
  {
    var db' := TransitionStatus(db, id, newStatus, actor, comment, now).value;
    TransitionAudit(db, id, newStatus, actor, comment, now);
    assert AboutReport(db'.log[|db.log|], id);
    var h := History(db'.log, id);
    var k :| 0 <= k < |h| && h[k].id == |db.log|;
    assert k == 0;
  }
}
