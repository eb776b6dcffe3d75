/** `InvoiceReviewer.confirm_invoice`: a person confirms an import from the
    inbox, possibly correcting four of its fields; the import becomes SUCCESS
    and a new PENDING report is created from it. The whole call is one
    transaction: an exception leaves the database as it was. */
module InvoiceReviewer {
  import opened Wrappers
  import opened Text
  import opened Dates
  import opened Money
  import opened Users
  import opened Audit
  import opened Reports
  import opened Invoices
  import opened Database
  import ImportManager

  // ---- the request body ----

  /** A JSON number of the request body: `text` is `str()` of the number
      Python reads (an `int` for a number written without a fraction, a
      `float` otherwise), `value` is its value. */
  datatype NumberInput = NumberInput(text: string, value: real)

  /** `data.get(field)` for the four corrected fields; an absent or null key
      is `None`. The dates and strings are the JSON strings sent. */
  datatype Submitted = Submitted(
    totalValue: Option<NumberInput>,
    dueDate: Option<string>,
    invoiceNumber: Option<string>,
    carrier: Option<string>)

  /** Why the transaction is rolled back: no such import (`Http404`), a due
      date the column cannot read (`ValidationError` on save), or a due date
      that was saved but is still a string in memory when the report is dated
      from it (`AttributeError` on `.month`). */
  datatype ConfirmError = NotFound | InvalidDate | DateNotConverted

  // ---- comparing with `str(old if old is not None else '')` ----

  /** `str()` of the stored total: `str(Decimal)` with two places, or "" when null. */
  function TotalText(stored: Option<int>): (s: string)
    ensures stored.None? <==> s == ""
  {
    if stored.Some? then DecimalString(stored.value) else ""
  }

  /** `str()` of the stored due date: ISO form, or "" when null. */
  function DueText(stored: Option<Date>): (s: string)
    requires stored.Some? ==> IsValid(stored.value)
    ensures stored.None? <==> s == ""
    ensures stored.Some? ==> ParseIso(s) == stored
  {
    if stored.Some? then IsoRoundTrip(stored.value); IsoFormat(stored.value) else ""
  }

  predicate TotalEdited(rec: InvoiceImport, sub: Submitted) {
    sub.totalValue.Some? && sub.totalValue.value.text != TotalText(rec.totalValue)
  }

  predicate DueEdited(rec: InvoiceImport, sub: Submitted)
    requires WellFormedImport(rec)
  {
    sub.dueDate.Some? && sub.dueDate.value != DueText(rec.dueDate)
  }

  predicate NumberEdited(rec: InvoiceImport, sub: Submitted) {
    sub.invoiceNumber.Some? && sub.invoiceNumber.value != rec.invoiceNumber.GetOr("")
  }

  predicate CarrierEdited(rec: InvoiceImport, sub: Submitted) {
    sub.carrier.Some? && sub.carrier.value != rec.carrier
  }

  /** A given due date names the same day as the stored one exactly when it
      is not counted as an edit. */
  lemma DueEditedMeansOtherDay(rec: InvoiceImport, sub: Submitted, d: Date)
    requires WellFormedImport(rec) && IsValid(d) && sub.dueDate == Some(IsoFormat(d))
    ensures DueEdited(rec, sub) <==> rec.dueDate != Some(d)
  {
    IsoRoundTrip(d);
    if rec.dueDate.Some? {
      IsoRoundTrip(rec.dueDate.value);
    }
  }

  // ---- applying the edits ----

  /** The record after the loop: each edited field takes the submitted
      value, the total as the column stores it; `due` is what the due date
      holds afterwards. */
  function ApplyEdits(rec: InvoiceImport, sub: Submitted, totalEdited: bool, due: Option<Date>): (r: InvoiceImport)
    requires totalEdited ==> sub.totalValue.Some?
    ensures r.totalValue == (if totalEdited then Some(Quantize(sub.totalValue.value.value)) else rec.totalValue)
    ensures r.invoiceNumber == (if NumberEdited(rec, sub) then sub.invoiceNumber else rec.invoiceNumber)
    ensures r.carrier == (if CarrierEdited(rec, sub) then sub.carrier.value else rec.carrier)
    ensures r.dueDate == due
    ensures r.(totalValue := rec.totalValue, invoiceNumber := rec.invoiceNumber,
               carrier := rec.carrier, dueDate := rec.dueDate) == rec
  {
    rec.(totalValue := if totalEdited then Some(Quantize(sub.totalValue.value.value)) else rec.totalValue,
         invoiceNumber := if NumberEdited(rec, sub) then sub.invoiceNumber else rec.invoiceNumber,
         carrier := if CarrierEdited(rec, sub) then sub.carrier.value else rec.carrier,
         dueDate := due)
  }

  /** The record as the first `save()` writes it: SUCCESS, and a confidence
      of 30 when anything was edited; nothing else changes but the timestamp. */
  function Reviewed(rec: InvoiceImport, edited: bool, now: Moment): (r: InvoiceImport)
    ensures r.status == Success && r.updatedAt == now
    ensures r.confidence == (if edited then 30 else rec.confidence)
    ensures r.(status := rec.status, confidence := rec.confidence, updatedAt := rec.updatedAt) == rec
  {
    rec.(status := Success, confidence := if edited then 30 else rec.confidence, updatedAt := now)
  }

  /** The report the confirmation creates: titled with the carrier as stored
      (or OUTROS) and the Portuguese month of its reference date, dated by the
      due date or else today, for the total or zero, PENDING. */
  function ReviewReport(rec: InvoiceImport, category: nat, today: Date): (r: Report)
    requires WellFormedImport(rec) && IsValid(today)
    ensures WellFormedReport(r) && r.status == ReportStatus.Pending && r.category == category
    ensures r.referenceDate == rec.dueDate.GetOr(today) && r.dueDate == rec.dueDate
    ensures r.totalValue == rec.totalValue.GetOr(0)
    ensures r.title == "FATURA " + ImportManager.FinalCarrier(rec.carrier) + " - "
                       + PortugueseMonth(r.referenceDate.month) + "/" + IntToString(r.referenceDate.year)
  {
    var ref := rec.dueDate.GetOr(today);
    Report("FATURA " + ImportManager.FinalCarrier(rec.carrier) + " - " + PortugueseMonth(ref.month)
           + "/" + IntToString(ref.year), ref, category, rec.totalValue.GetOr(0), ReportStatus.Pending, rec.dueDate)
  }

  // ---- the two stages of the transaction ----

  /** The record holds the number sent in memory: Python's `int` when the
      JSON wrote it with neither fraction nor exponent, a `float` otherwise. */
  predicate WrittenAsInteger(text: string) {
    |text| > 0 && forall i :: 0 <= i < |text| ==> text[i] == '-' || '0' <= text[i] <= '9'
  }

  function NumberValue(n: NumberInput): (v: Value)
    ensures SerializableValue(v)
    ensures v.Int? <==> WrittenAsInteger(n.text)
    ensures v.Int? || v.Float?
  {
    if WrittenAsInteger(n.text) then Int(n.value.Floor) else Float(n.value)
  }

  /** The number as the audit snapshot's JSON writes it back. */
  function SentNumber(n: NumberInput): (j: Json)
    ensures j == JsonSerial(NumberValue(n))
  {
    if WrittenAsInteger(n.text) then JInt(n.value.Floor) else JFloat(n.value)
  }

  /** An entry whose after-state shows the total as the number sent, when
      there is one. */
  predicate TotalLogged(e: AuditEntry, edit: Option<NumberInput>) {
    edit.Some? ==> e.after.Some? && Lookup(e.after.value, "total_value") == Some(SentNumber(edit.value))
  }

  /** `model_to_dict` of a record whose total was assigned `edit` in memory:
      the column reads back the number assigned, not the stored decimal. */
  function InMemoryDict(d: Dict<Value>, edit: Option<NumberInput>): (r: Dict<Value>)
    requires Serializable(d)
    ensures Serializable(r)
  {
    if edit.Some? then
      SerializeAssign(d, "total_value", NumberValue(edit.value));
      Assign(d, "total_value", NumberValue(edit.value))
    else d
  }

  /** The edited snapshot as logged: the number assigned at `total_value`,
      every other key as `model_to_dict` of the stored row gives it. */
  lemma InMemoryLogged(d: Dict<Value>, edit: Option<NumberInput>)
    requires Serializable(d)
    ensures edit.Some? ==>
              Lookup(Serialize(InMemoryDict(d, edit)), "total_value")
                == Some(SentNumber(edit.value))
    ensures forall key :: key != "total_value" ==>
              Lookup(Serialize(InMemoryDict(d, edit)), key) == Lookup(Serialize(d), key)
  {
    if edit.Some? {
      SerializeAssign(d, "total_value", NumberValue(edit.value));
    }
  }

  /** The edited record saved as reviewed, then one UPDATE entry under
      "InvoiceImport (Review)" with the record as loaded and as held in
      memory after the save: `edit` is the number an edited total was
      assigned, which the snapshot shows as the JSON number sent. */
  function SaveReviewed(db: Db, id: nat, rec: InvoiceImport, edited: bool, edit: Option<NumberInput>,
                        actor: Actor, now: Moment): (r: Db)
    requires Valid(db) && id < |db.imports| && WellFormedImport(rec) && IsValidMoment(now)
    requires rec.fileHash == db.imports[id].fileHash && rec.report == db.imports[id].report
    ensures Valid(r) && r.reports == db.reports && r.categories == db.categories
    ensures r.imports == db.imports[id := Reviewed(rec, edited, now)]
    ensures |r.log| == |db.log| + 1 && r.log[..|db.log|] == db.log
    ensures r.log[|db.log|].action == Update && r.log[|db.log|].entity == "InvoiceImport (Review)"
    ensures r.log[|db.log|].entityId == IntToString(id)
    ensures r.log[|db.log|].before == Clean(Some(ImportDict(id, db.imports[id])))
    ensures var after := r.log[|db.log|].after; var stored := Serialize(ImportDict(id, Reviewed(rec, edited, now)));
      after.Some?
      && (edit.None? ==> after.value == stored)
      && (edit.Some? ==> Lookup(after.value, "total_value")
                           == Some(SentNumber(edit.value)))
      && (forall key :: key != "total_value" ==> Lookup(after.value, key) == Lookup(stored, key))
  {
    var saved := Reviewed(rec, edited, now);
    var db1 := Resave(db, id, saved);
    InMemoryLogged(ImportDict(id, saved), edit);
    WithLog(db1, LogAction(db.log, actor, Update, "InvoiceImport", id, Some(ImportDict(id, db.imports[id])),
                           Some(InMemoryDict(ImportDict(id, saved), edit)), Some("InvoiceImport (Review)"), now))
  }

  /** The category named after the carrier, a new report in it, the record
      relinked to that report, and one IMPORT entry for the report. The report
      is created from the record in memory, so a non-zero edited total `edit`
      is what its snapshot shows, as the JSON number sent; a zero one is
      falsy and replaced by `Decimal('0.00')`. */
  function CreateReviewReport(db: Db, id: nat, edit: Option<NumberInput>, actor: Actor, now: Moment): (r: (Db, nat))
    requires Valid(db) && id < |db.imports| && IsValidMoment(now)
    ensures Valid(r.0) && r.1 !in db.reports && r.1 in r.0.reports
    ensures var rep := r.0.reports[r.1];
      r.0.reports == db.reports[r.1 := rep]
      && rep == ReviewReport(db.imports[id], rep.category, now.date)
      && rep.category in r.0.categories
      && r.0.categories[rep.category].name == Capitalize(ImportManager.FinalCarrier(db.imports[id].carrier))
    ensures r.0.imports == db.imports[id := db.imports[id].(report := Some(r.1), updatedAt := now)]
    ensures |r.0.log| == |db.log| + 1 && r.0.log[..|db.log|] == db.log
    ensures r.0.log[|db.log|].action == Import && r.0.log[|db.log|].entity == "Report"
    ensures r.0.log[|db.log|].entityId == IntToString(r.1) && r.0.log[|db.log|].before.None?
    ensures var after := r.0.log[|db.log|].after; var stored := Serialize(ReportDict(r.1, r.0.reports[r.1]));
      after.Some?
      && Lookup(after.value, "total_value")
           == Some(if edit.Some? && edit.value.value != 0.0 then
                     SentNumber(edit.value)
                   else JString(DecimalString(r.0.reports[r.1].totalValue)))
      && (forall key :: key != "total_value" ==> Lookup(after.value, key) == Lookup(stored, key))
  {
    var rec := db.imports[id];
    var (db1, c) := GetOrCreateCategory(db, Capitalize(ImportManager.FinalCarrier(rec.carrier)));
    var rep := ReviewReport(rec, c, now.date);
    var (db2, rid) := CreateReport(db1, rep);
    assert forall j :: 0 <= j < |db2.imports| ==> db2.imports[j].report != Some(rid);
    var db3 := SaveImport(db2, id, rec.(report := Some(rid), updatedAt := now));
    var truthy := if edit.Some? && edit.value.value != 0.0 then edit else None;
    var dict := ReportDict(rid, rep);
    InMemoryLogged(dict, truthy);
    ReportTotalLogged(rid, rep);
    (WithLog(db3, LogAction(db3.log, actor, Import, "Report", rid, None, Some(InMemoryDict(dict, truthy)),
                            Some("Report"), now)), rid)
  }

  lemma ReportTotalLogged(id: nat, rep: Report)
    requires WellFormedReport(rep)
    ensures Lookup(Serialize(ReportDict(id, rep)), "total_value") == Some(JString(DecimalString(rep.totalValue)))
  {
    var d := ReportDict(id, rep);
    LookupFirst(d, 4);
    SerializeLookup(d, "total_value");
  }

  /** Both stages: the reviewed record ends SUCCESS, linked to a new PENDING
      report; any report it was linked to before stays, unlinked; two audit
      entries are appended, each showing an edited total as the number sent. */
  function Finish(db: Db, id: nat, rec: InvoiceImport, edited: bool, edit: Option<NumberInput>,
                  actor: Actor, now: Moment): (r: (Db, nat))
    requires Valid(db) && id < |db.imports| && WellFormedImport(rec) && IsValidMoment(now)
    requires rec.fileHash == db.imports[id].fileHash && rec.report == db.imports[id].report
    ensures Valid(r.0) && r.1 !in db.reports && r.1 in r.0.reports
    ensures r.0.reports == db.reports[r.1 := r.0.reports[r.1]]
    ensures r.0.reports[r.1] == ReviewReport(Reviewed(rec, edited, now), r.0.reports[r.1].category, now.date)
    ensures r.0.imports == db.imports[id := Reviewed(rec, edited, now).(report := Some(r.1))]
    ensures |r.0.imports| == |db.imports| && r.0.imports[id].report == Some(r.1)
    ensures |r.0.log| == |db.log| + 2 && r.0.log[..|db.log|] == db.log
    ensures r.0.log[|db.log|].action == Update && r.0.log[|db.log|].entity == "InvoiceImport (Review)"
    ensures r.0.log[|db.log| + 1].action == Import && r.0.log[|db.log| + 1].entity == "Report"
    ensures TotalLogged(r.0.log[|db.log|], edit)
    ensures TotalLogged(r.0.log[|db.log| + 1], if edit.Some? && edit.value.value != 0.0 then edit else None)
  {
    var db1 := SaveReviewed(db, id, rec, edited, edit, actor, now);
    FinishRecord(db, id, rec, edited, edit, actor, now);
    FinishLog(db, id, rec, edited, edit, actor, now);
    CreateReviewReport(db1, id, edit, actor, now)
  }

  /** The record after both stages: reviewed, and linked to the new report. */
  lemma FinishRecord(db: Db, id: nat, rec: InvoiceImport, edited: bool, edit: Option<NumberInput>,
                     actor: Actor, now: Moment)
    requires Valid(db) && id < |db.imports| && WellFormedImport(rec) && IsValidMoment(now)
    requires rec.fileHash == db.imports[id].fileHash && rec.report == db.imports[id].report
    ensures var db1 := SaveReviewed(db, id, rec, edited, edit, actor, now);
      var r := CreateReviewReport(db1, id, edit, actor, now);
      r.0.imports == db.imports[id := Reviewed(rec, edited, now).(report := Some(r.1))]
      && r.0.reports[r.1] == ReviewReport(Reviewed(rec, edited, now), r.0.reports[r.1].category, now.date)
  {
    var db1 := SaveReviewed(db, id, rec, edited, edit, actor, now);
    var r := CreateReviewReport(db1, id, edit, actor, now);
    var saved := Reviewed(rec, edited, now);
    assert db1.imports[id] == saved;
    assert saved.(report := Some(r.1), updatedAt := now) == saved.(report := Some(r.1));
    UpdateTwice(db.imports, id, saved, saved.(report := Some(r.1)));
  }

  lemma UpdateTwice<T>(s: seq<T>, i: nat, x: T, y: T)
    requires i < |s|
    ensures s[i := x][i := y] == s[i := y]
  {
  }

  /** The log after both stages: the review entry, then the report entry. */
  lemma FinishLog(db: Db, id: nat, rec: InvoiceImport, edited: bool, edit: Option<NumberInput>,
                  actor: Actor, now: Moment)
    requires Valid(db) && id < |db.imports| && WellFormedImport(rec) && IsValidMoment(now)
    requires rec.fileHash == db.imports[id].fileHash && rec.report == db.imports[id].report
    ensures var db1 := SaveReviewed(db, id, rec, edited, edit, actor, now);
      var r := CreateReviewReport(db1, id, edit, actor, now);
      |r.0.log| == |db.log| + 2 && r.0.log[..|db.log|] == db.log
      && r.0.log[|db.log|] == db1.log[|db.log|]
  {
    var db1 := SaveReviewed(db, id, rec, edited, edit, actor, now);
    var r := CreateReviewReport(db1, id, edit, actor, now);
    PrefixOfPrefix(db.log, db1.log, r.0.log);
  }

  lemma PrefixOfPrefix<T>(a: seq<T>, b: seq<T>, c: seq<T>)
    requires |b| == |a| + 1 && b[..|a|] == a && |c| == |b| + 1 && c[..|b|] == b
    ensures |c| == |a| + 2 && c[..|a|] == a && c[|a|] == b[|a|]
  {
    assert c[..|a|] == c[..|b|][..|a|];
  }

  // ---- the call ----

  /** `confirm_invoice` as written. An edited due date is assigned as the
      string sent: text the column cannot read fails the first save, and a
      readable one is saved but stays a string in memory, so dating the report
      from it fails. Either way the transaction is rolled back. */
  function Confirm(db: Db, id: nat, sub: Submitted, actor: Actor, now: Moment): (r: Result<(Db, nat), ConfirmError>)
    requires Valid(db) && IsValidMoment(now)
    ensures id >= |db.imports| ==> r == Err(NotFound)
    ensures id < |db.imports| ==> (r.Err? <==> DueEdited(db.imports[id], sub))
    ensures r.Err? && r != Err(NotFound) ==>
              (r == Err(DateNotConverted) <==> ParseIso(sub.dueDate.value).Some?)
    ensures r.Ok? ==> var rec := db.imports[id];
      r.value == Finish(db, id, ApplyEdits(rec, sub, TotalEdited(rec, sub), rec.dueDate),
                        TotalEdited(rec, sub) || NumberEdited(rec, sub) || CarrierEdited(rec, sub),
                        if TotalEdited(rec, sub) then sub.totalValue else None, actor, now)
  {
    if id >= |db.imports| then Err(NotFound)
    else
      var rec := db.imports[id];
      if DueEdited(rec, sub) then
        if ParseIso(sub.dueDate.value).Some? then Err(DateNotConverted) else Err(InvalidDate)
      else
        var edited := TotalEdited(rec, sub) || NumberEdited(rec, sub) || CarrierEdited(rec, sub);
        Ok(Finish(db, id, ApplyEdits(rec, sub, TotalEdited(rec, sub), rec.dueDate), edited,
                  if TotalEdited(rec, sub) then sub.totalValue else None, actor, now))
  }

  /** The total counts as edited when its value differs from the stored one. */
  predicate TotalChangedInValue(rec: InvoiceImport, sub: Submitted) {
    sub.totalValue.Some? && (rec.totalValue.None? || sub.totalValue.value.value != CentsValue(rec.totalValue.value))
  }

  /** The due date the corrected confirmation stores: the day an edited ISO
      string names, else the stored one. */
  function CorrectedDue(rec: InvoiceImport, sub: Submitted): (r: Option<Date>)
    requires WellFormedImport(rec)
    ensures r.Some? ==> IsValid(r.value)
    ensures !DueEdited(rec, sub) ==> r == rec.dueDate
    ensures DueEdited(rec, sub) ==> r == ParseIso(sub.dueDate.value)
  {
    if DueEdited(rec, sub) then ParseIso(sub.dueDate.value) else rec.dueDate
  }

  /** `confirm_invoice` with both slips corrected: an edited due date is read
      as a date before it is stored, and the total is compared by value. */
  function ConfirmCorrected(db: Db, id: nat, sub: Submitted, actor: Actor, now: Moment): (r: Result<(Db, nat), ConfirmError>)
    requires Valid(db) && IsValidMoment(now)
    ensures id >= |db.imports| ==> r == Err(NotFound)
    ensures id < |db.imports| ==>
              (r.Err? <==> DueEdited(db.imports[id], sub) && ParseIso(sub.dueDate.value).None?)
    ensures r.Err? && id < |db.imports| ==> r == Err(InvalidDate)
    ensures r.Ok? ==> var rec := db.imports[id];
      r.value == Finish(db, id, ApplyEdits(rec, sub, TotalChangedInValue(rec, sub), CorrectedDue(rec, sub)),
                        TotalChangedInValue(rec, sub) || DueEdited(rec, sub) || NumberEdited(rec, sub)
                        || CarrierEdited(rec, sub),
                        if TotalChangedInValue(rec, sub) then sub.totalValue else None, actor, now)
  {
    if id >= |db.imports| then Err(NotFound)
    else
      var rec := db.imports[id];
      if DueEdited(rec, sub) && ParseIso(sub.dueDate.value).None? then Err(InvalidDate)
      else
        var edited := TotalChangedInValue(rec, sub) || DueEdited(rec, sub) || NumberEdited(rec, sub)
                      || CarrierEdited(rec, sub);
        Ok(Finish(db, id, ApplyEdits(rec, sub, TotalChangedInValue(rec, sub), CorrectedDue(rec, sub)),
                  edited, if TotalChangedInValue(rec, sub) then sub.totalValue else None, actor, now))
  }

  // ---- properties ----

  /** What the inbox dialog sends back when nothing is touched: the total as
      the JSON number the inbox listed (written `numberText`), the due date in
      ISO form or "", the invoice number (null stays null) and the carrier. */
  function Untouched(rec: InvoiceImport, numberText: string): (sub: Submitted)
    requires WellFormedImport(rec)
    ensures sub.totalValue.Some? && sub.dueDate.Some? && sub.carrier == Some(rec.carrier)
    ensures rec.totalValue.Some? ==> sub.totalValue.value.value == CentsValue(rec.totalValue.value)
  {
    Submitted(Some(NumberInput(numberText, CentsValue(rec.totalValue.GetOr(0)))),
              Some(DueText(rec.dueDate)), rec.invoiceNumber, Some(rec.carrier))
  }

  /** A confirmation that finds the import always succeeds unless the due
      date was edited, leaves it SUCCESS and linked to a report that did not
      exist before, and sets the confidence to 30 exactly when a field was
      edited. */
  lemma ConfirmOutcome(db: Db, id: nat, sub: Submitted, actor: Actor, now: Moment)
    requires Valid(db) && IsValidMoment(now) && id < |db.imports| && !DueEdited(db.imports[id], sub)
    requires db.imports[id].confidence != 30
    ensures var r := Confirm(db, id, sub, actor, now);
      r.Ok? && r.value.0.imports[id].status == Success
      && r.value.0.imports[id].report == Some(r.value.1) && r.value.1 !in db.reports
      && r.value.0.reports[r.value.1].status == ReportStatus.Pending
      && (r.value.0.imports[id].confidence == 30
          <==> TotalEdited(db.imports[id], sub) || NumberEdited(db.imports[id], sub)
               || CarrierEdited(db.imports[id], sub))
  {
  }

  /** An edited total is logged as the JSON number sent: in the review entry,
      and in the new report's entry unless the number is zero. */
  lemma EditedTotalLoggedAsSent(db: Db, id: nat, sub: Submitted, actor: Actor, now: Moment)
    requires Valid(db) && IsValidMoment(now) && id < |db.imports| && !DueEdited(db.imports[id], sub)
    requires TotalEdited(db.imports[id], sub)
    ensures var r := Confirm(db, id, sub, actor, now); var n := sub.totalValue.value;
      r.Ok? && |r.value.0.log| == |db.log| + 2
      && r.value.0.log[|db.log|].after.Some?
      && Lookup(r.value.0.log[|db.log|].after.value, "total_value") == Some(SentNumber(n))
      && r.value.0.log[|db.log| + 1].after.Some?
      && (n.value != 0.0 ==> Lookup(r.value.0.log[|db.log| + 1].after.value, "total_value") == Some(SentNumber(n)))
  {
  }

  /** Confirming twice creates two reports: the first stays in the
      database, no longer linked to the import. */
  lemma ConfirmTwice(db: Db, id: nat, sub: Submitted, actor: Actor, now: Moment)
    requires Valid(db) && IsValidMoment(now) && id < |db.imports|
    requires Confirm(db, id, sub, actor, now).Ok?
    ensures var (db1, first) := Confirm(db, id, sub, actor, now).value;
      var r := ConfirmCorrected(db1, id, Submitted(None, None, None, None), actor, now);
      r.Ok? && r.value.1 != first && first in r.value.0.reports
      && r.value.0.imports[id].report == Some(r.value.1)
      && SourceOf(r.value.0.imports, first).None?
  {
    var (db1, first) := Confirm(db, id, sub, actor, now).value;
    var r := ConfirmCorrected(db1, id, Submitted(None, None, None, None), actor, now);
    var imports := r.value.0.imports;
    assert forall j :: 0 <= j < |imports| ==> imports[j].report != Some(first) by {
      forall j | 0 <= j < |imports|
        ensures imports[j].report != Some(first)
      {
        if j != id {
          assert imports[j] == db1.imports[j];
          assert db1.imports[id].report == Some(first);
          if j < id { assert db1.imports[j].report != db1.imports[id].report; }
          else { assert db1.imports[id].report != db1.imports[j].report; }
        }
      }
    }
  }

  /** As written: any edit of the due date to a real day rolls the
      confirmation back. */
  lemma EditedDueDateRejected(db: Db, id: nat, sub: Submitted, actor: Actor, now: Moment, d: Date)
    requires Valid(db) && IsValidMoment(now) && id < |db.imports| && IsValid(d)
    requires sub.dueDate == Some(IsoFormat(d)) && db.imports[id].dueDate != Some(d)
    ensures Confirm(db, id, sub, actor, now) == Err(DateNotConverted)
  {
    DueEditedMeansOtherDay(db.imports[id], sub, d);
    IsoRoundTrip(d);
  }

  /** Corrected: an edit of the due date to a real day is stored, and the
      report is dated by it. */
  lemma EditedDueDateStored(db: Db, id: nat, sub: Submitted, actor: Actor, now: Moment, d: Date)
    requires Valid(db) && IsValidMoment(now) && id < |db.imports| && IsValid(d)
    requires sub.dueDate == Some(IsoFormat(d)) && db.imports[id].dueDate != Some(d)
    ensures var r := ConfirmCorrected(db, id, sub, actor, now);
      r.Ok? && r.value.0.imports[id].dueDate == Some(d)
      && r.value.0.reports[r.value.1].referenceDate == d
      && r.value.0.reports[r.value.1].dueDate == Some(d)
      && r.value.0.imports[id].confidence == 30
  {
    DueEditedMeansOtherDay(db.imports[id], sub, d);
    IsoRoundTrip(d);
  }

  /** As written: a stored total of R$ 100.00 sent back untouched arrives as
      the JSON number `100`, whose `str()` is not "100.00", so the untouched
      confirmation is penalised as an edit. */
  lemma UntouchedRoundTotalPenalised(db: Db, id: nat, actor: Actor, now: Moment)
    requires Valid(db) && IsValidMoment(now) && id < |db.imports|
    requires db.imports[id].totalValue == Some(10000)
    ensures var r := Confirm(db, id, Untouched(db.imports[id], "100"), actor, now);
      r.Ok? && r.value.0.imports[id].confidence == 30
  {
    assert |DecimalString(10000)| >= 4;
  }

  /** Corrected: a confirmation that sends every field back untouched keeps
      the confidence, whatever text the total's number is written with. */
  lemma UntouchedKeepsConfidence(db: Db, id: nat, numberText: string, actor: Actor, now: Moment)
    requires Valid(db) && IsValidMoment(now) && id < |db.imports|
    requires db.imports[id].totalValue.Some?
    ensures var r := ConfirmCorrected(db, id, Untouched(db.imports[id], numberText), actor, now);
      r.Ok? && r.value.0.imports[id].confidence == db.imports[id].confidence
      && r.value.0.imports[id].totalValue == db.imports[id].totalValue
  {
  }
}
