/** `ImportManager`: the decision ladder of `process_invoice` and the
    `_handle_report` bridge from a successful import to its report. Hashing,
    text extraction and the parsers' own work are inputs: the model receives
    what each of them returns or the text of the error it raises. */
module ImportManager {
  import opened Wrappers
  import opened Text
  import opened Dates
  import opened Money
  import opened Users
  import opened Audit
  import opened Reports
  import opened Invoices
  import opened Database
  import opened Parsing

  // ---- carrier ----

  /** `identify_carrier`: VIVO or TELEFONICA anywhere in the upper-cased text
      names VIVO, checked before CLARO or EMBRATEL, which name CLARO. */
  function IdentifyCarrier(text: string): (r: Option<string>)
    ensures r.None? || r == Some("VIVO") || r == Some("CLARO")
    ensures r == Some("VIVO") <==> Contains(Upper(text), "VIVO") || Contains(Upper(text), "TELEFONICA")
  {
    var t := Upper(text);
    if Contains(t, "VIVO") || Contains(t, "TELEFONICA") then Some("VIVO")
    else if Contains(t, "CLARO") || Contains(t, "EMBRATEL") then Some("CLARO")
    else None
  }

  /** The carrier is found whatever the letter case of the text: two texts
      that upper-case alike name the same carrier. */
  lemma IdentifyCarrierCaseInsensitive(a: string, b: string)
    requires Upper(a) == Upper(b)
    ensures IdentifyCarrier(a) == IdentifyCarrier(b)
    ensures IdentifyCarrier(Upper(a)) == IdentifyCarrier(a)
  {
    UpperIdempotent(a);
  }

  /** A text naming both carriers is VIVO's; a text naming neither is no
      carrier's. */
  lemma IdentifyCarrierPriority(text: string)
    ensures Contains(Upper(text), "VIVO") && Contains(Upper(text), "CLARO")
            ==> IdentifyCarrier(text) == Some("VIVO")
    ensures IdentifyCarrier(text) == Some("CLARO")
            <==> !Contains(Upper(text), "VIVO") && !Contains(Upper(text), "TELEFONICA")
                 && (Contains(Upper(text), "CLARO") || Contains(Upper(text), "EMBRATEL"))
    ensures IdentifyCarrier(text).None?
            <==> !Contains(Upper(text), "VIVO") && !Contains(Upper(text), "TELEFONICA")
                 && !Contains(Upper(text), "CLARO") && !Contains(Upper(text), "EMBRATEL")
  {
  }

  // ---- inputs ----

  /** The `metadata` hints; an absent key is `None`. */
  datatype Meta = Meta(year: Option<int>, city: Option<string>, carrier: Option<string>, month: Option<string>)

  /** `metadata or {}` when no hints are given. */
  const NoMeta: Meta := Meta(None, None, None, None)

  /** What `process_invoice` reads besides the database: the string form of
      the source, whether it is an uploaded file object, what hashing it
      gives (the digest or the error's text), the preliminary text sample
      (empty when its extraction raised), what each parser returns (the
      extracted fields or the error's text), and the hints. */
  datatype Input = Input(
    source: string,
    isUpload: bool,
    hash: Result<string, string>,
    textSample: string,
    vivo: Result<Extracted, string>,
    claro: Result<Extracted, string>,
    metadata: Option<Meta>)

  /** The parsers' results keep their guarantees. */
  predicate InputOk(inp: Input) {
    (inp.vivo.Ok? ==> Sound(inp.vivo.value)) && (inp.claro.Ok? ==> Sound(inp.claro.value))
  }

  /** `carrier_key`: the upper-cased carrier hint, or, when that is empty,
      the carrier the text sample names; "" stands for `None`. */
  function CarrierKey(meta: Meta, textSample: string): (k: string)
    ensures Upper(meta.carrier.GetOr("")) != "" ==> k == Upper(meta.carrier.GetOr(""))
    ensures Upper(meta.carrier.GetOr("")) == "" ==> k == IdentifyCarrier(textSample).GetOr("")
  {
    var hint := Upper(meta.carrier.GetOr(""));
    if hint != "" then hint else IdentifyCarrier(textSample).GetOr("")
  }

  /** `carrier_key or 'OUTROS'`. */
  function FinalCarrier(key: string): (c: string)
    ensures c != ""
    ensures key != "" ==> c == key
  {
    if key != "" then key else "OUTROS"
  }

  datatype ParserKind = VivoParsing | ClaroParsing

  /** `self.parsers.get(carrier_key) or base_parser`: the CLARO parser for the
      key CLARO, the VIVO parser for every other key, unknown ones included. */
  function ChooseParser(key: string): (p: ParserKind)
    ensures p == ClaroParsing <==> key == "CLARO"
  {
    if key == "CLARO" then ClaroParsing else VivoParsing
  }

  function Parsed(inp: Input, p: ParserKind): (r: Result<Extracted, string>)
    requires InputOk(inp)
    ensures r.Ok? ==> Sound(r.value)
  {
    match p
    case VivoParsing => inp.vivo
    case ClaroParsing => inp.claro
  }

  // ---- decisions ----

  /** The import status the extracted fields earn: PENDING_REVIEW when the
      total is missing or zero or the due date is missing, else SUCCESS. */
  function FinalStatus(x: Extracted): (s: ImportStatus)
    ensures s == Success || s == PendingReview
    ensures s == Success <==> x.totalValue.Some? && x.totalValue.value != 0.0 && x.dueDate.Some?
  {
    if !TruthyAmount(x.totalValue) || x.dueDate.None? then PendingReview else Success
  }

  /** The hash `process_invoice` works with: the instance's own when it has
      one, else the result of hashing the source. */
  function ResolveHash(db: Db, instance: Option<nat>, hashed: Result<string, string>): (r: Result<string, string>)
    requires instance.Some? ==> instance.value < |db.imports|
    ensures instance.Some? && db.imports[instance.value].fileHash != ""
            ==> r == Ok(db.imports[instance.value].fileHash)
    ensures (instance.None? || db.imports[instance.value].fileHash == "") ==> r == hashed
  {
    if instance.Some? && db.imports[instance.value].fileHash != "" then Ok(db.imports[instance.value].fileHash)
    else hashed
  }

  /** The record's report exists and is PENDING or APPROVED. */
  predicate IsActive(db: Db, k: nat)
    requires Valid(db) && k < |db.imports|
  {
    db.imports[k].report.Some?
    && db.reports[db.imports[k].report.value].status in {ReportStatus.Pending, Approved}
  }

  datatype Outcome = Done(db: Db, status: ImportStatus, message: string) | Raised(message: string)

  const SkippedMessage: string := "Já Importado (Ativo)"
  const ProcessedMessage: string := "Fatura processada com sucesso."
  const ImportedMessage: string := "Fatura importada com sucesso."
  const ReviewMessage: string := "Fatura requer revisão."

  /** The text of the unique-constraint error a second record with the same
      hash raises on save. */
  const HashConflict: string := "UNIQUE constraint failed: invoices_invoiceimport.file_hash"

  /** A hash error: only a passed instance is marked, and nothing else
      changes. */
  function FailHash(db: Db, instance: Option<nat>, msg: string, now: Moment): (out: Outcome)
    requires Valid(db) && IsValidMoment(now) && (instance.Some? ==> instance.value < |db.imports|)
    ensures out.Done? && Valid(out.db) && out.status == ImportStatus.Failed && out.message == msg
    ensures instance.None? ==> out.db == db
    ensures instance.Some? ==> out.db.imports == db.imports[instance.value := db.imports[instance.value].(
              status := ImportStatus.Failed, errorMessage := Some(msg), errorCode := Some(HashError), updatedAt := now)]
    ensures out.db.reports == db.reports && out.db.log == db.log
  {
    match instance
    case None => Done(db, ImportStatus.Failed, msg)
    case Some(i) =>
      var rec := db.imports[i].(status := ImportStatus.Failed, errorMessage := Some(msg),
                                errorCode := Some(HashError), updatedAt := now);
      Done(SaveImport(db, i, rec), ImportStatus.Failed, msg)
  }

  /** A duplicate of an active report: a passed instance becomes SKIPPED with
      DUPLICATE_ACTIVE; a record found by hash is left alone. */
  function SkipActive(db: Db, instance: Option<nat>, now: Moment): (out: Outcome)
    requires Valid(db) && IsValidMoment(now) && (instance.Some? ==> instance.value < |db.imports|)
    ensures out.Done? && Valid(out.db) && out.status == Skipped && out.message == SkippedMessage
    ensures instance.None? ==> out.db == db
    ensures instance.Some? ==> out.db.imports == db.imports[instance.value := db.imports[instance.value].(
              status := Skipped, errorCode := Some(DuplicateActive), updatedAt := now)]
    ensures out.db.reports == db.reports && out.db.log == db.log
  {
    match instance
    case None => Done(db, Skipped, SkippedMessage)
    case Some(i) =>
      var rec := db.imports[i].(status := Skipped, errorCode := Some(DuplicateActive), updatedAt := now);
      Done(SaveImport(db, i, rec), Skipped, SkippedMessage)
  }

  /** A parser error: the existing record, if any, becomes FAILED with
      EXTRACTION_FAILED and its report, if any, becomes FAILED. */
  function FailExtraction(db: Db, existing: Option<nat>, msg: string, now: Moment): (out: Outcome)
    requires Valid(db) && IsValidMoment(now) && (existing.Some? ==> existing.value < |db.imports|)
    ensures out.Done? && Valid(out.db) && out.status == ImportStatus.Failed && out.message == msg
    ensures existing.None? ==> out.db == db
    ensures existing.Some? ==> out.db.imports == db.imports[existing.value := db.imports[existing.value].(
              status := ImportStatus.Failed, errorMessage := Some(msg), errorCode := Some(ExtractionFailed), updatedAt := now)]
    ensures existing.Some? && db.imports[existing.value].report.Some? ==>
              (var id := db.imports[existing.value].report.value;
               out.db.reports == db.reports[id := db.reports[id].(status := ReportStatus.Failed)])
    ensures existing.None? || db.imports[existing.value].report.None? ==> out.db.reports == db.reports
    ensures out.db.log == db.log && out.db.categories == db.categories
  {
    match existing
    case None => Done(db, ImportStatus.Failed, msg)
    case Some(k) =>
      var db1 := match db.imports[k].report
        case None => db
        case Some(id) => SaveReport(db, id, db.reports[id].(status := ReportStatus.Failed));
      var rec := db.imports[k].(status := ImportStatus.Failed, errorMessage := Some(msg),
                                errorCode := Some(ExtractionFailed), updatedAt := now);
      Done(SaveImport(db1, k, rec), ImportStatus.Failed, msg)
  }

  /** `extracted.get('total_value') or Decimal('0.00')`. */
  function StoredAmount(x: Extracted): (a: real)
    ensures x.totalValue.Some? ==> a == x.totalValue.value
    ensures x.totalValue.None? ==> a == 0.0
  {
    x.totalValue.GetOr(0.0)
  }

  /** `import_data` written over `rec`: the path, hints (falling back to the
      current year, 'N/A' and the English month name), the carrier, the
      extracted fields, the status and its error code, and the hash; an
      uploaded source also replaces the stored file. */
  function WithData(rec: InvoiceImport, inp: Input, h: string, meta: Meta, key: string,
                    x: Extracted, now: Moment): (r: InvoiceImport)
    requires Sound(x) && IsValidMoment(now) && WellFormedImport(rec)
    ensures WellFormedImport(r)
    ensures r.fileHash == h && r.filePath == inp.source && r.carrier == FinalCarrier(key)
    ensures r.status == FinalStatus(x) && r.errorMessage.None?
    ensures r.errorCode == (if r.status == Success then None else Some(MissingRequiredData))
    ensures r.totalValue == Some(Quantize(StoredAmount(x))) && r.totalValue.value >= 0
    ensures r.dueDate == x.dueDate && r.invoiceNumber == x.invoiceNumber && r.confidence == x.confidence
    ensures r.report == rec.report && r.createdAt == rec.createdAt && r.updatedAt == now
    ensures r.file == (if inp.isUpload then StoredFileName(h + ".pdf", now.date) else rec.file)
  {
    var status := FinalStatus(x);
    QuantizeMonotone(0.0, StoredAmount(x));
    QuantizeExact(0);
    rec.(filePath := inp.source,
         file := if inp.isUpload then StoredFileName(h + ".pdf", now.date) else rec.file,
         fileHash := h,
         year := if meta.year.Some? && meta.year.value != 0 then meta.year.value else now.date.year,
         city := OrElse(meta.city, "N/A"),
         carrier := FinalCarrier(key),
         month := OrElse(meta.month, EnglishMonth(now.date.month)),
         invoiceNumber := x.invoiceNumber,
         dueDate := x.dueDate,
         totalValue := Some(Quantize(StoredAmount(x))),
         confidence := x.confidence,
         status := status,
         errorMessage := None,
         errorCode := if status == Success then None else Some(MissingRequiredData),
         updatedAt := now)
  }

  // ---- the report bridge ----

  /** The report `_handle_report` writes for import `rec`: titled after the
      carrier, month and year, dated by the due date or today, PENDING. */
  function BridgeReport(rec: InvoiceImport, category: nat, today: Date): (r: Report)
    requires WellFormedImport(rec) && IsValid(today) && rec.totalValue.Some?
    ensures WellFormedReport(r) && r.status == ReportStatus.Pending && r.category == category
    ensures r.totalValue == rec.totalValue.value && r.dueDate == rec.dueDate
    ensures r.referenceDate == rec.dueDate.GetOr(today)
  {
    Report("FATURA " + Upper(rec.carrier) + " - " + rec.month + "/" + IntToString(rec.year),
           rec.dueDate.GetOr(today), category, rec.totalValue.value, ReportStatus.Pending, rec.dueDate)
  }

  /** The report holding import `k`'s data, in the category named after its
      carrier. */
  predicate Bridged(r: Db, id: nat, rec: InvoiceImport, today: Date)
    requires WellFormedImport(rec) && IsValid(today) && rec.totalValue.Some?
  {
    id in r.reports
    && r.reports[id].category in r.categories
    && r.categories[r.reports[id].category].name == Capitalize(rec.carrier)
    && r.reports[id] == BridgeReport(rec, r.reports[id].category, today)
  }

  /** The linked report is rewritten in place. */
  function BridgeUpdate(db: Db, k: nat, now: Moment): (r: Db)
    requires Valid(db) && k < |db.imports| && IsValidMoment(now)
    requires db.imports[k].totalValue.Some? && db.imports[k].report.Some?
    ensures Valid(r) && r.imports == db.imports && r.log == db.log
    ensures var id := db.imports[k].report.value;
      Bridged(r, id, db.imports[k], now.date) && r.reports == db.reports[id := r.reports[id]]
  {
    var rec := db.imports[k];
    var (db1, c) := GetOrCreateCategory(db, Capitalize(rec.carrier));
    SaveReport(db1, rec.report.value, BridgeReport(rec, c, now.date))
  }

  /** A new report is created and linked. */
  function BridgeCreate(db: Db, k: nat, now: Moment): (r: Db)
    requires Valid(db) && k < |db.imports| && IsValidMoment(now)
    requires db.imports[k].totalValue.Some? && db.imports[k].report.None?
    ensures Valid(r) && r.log == db.log && |r.imports| == |db.imports|
    ensures r.imports == db.imports[k := db.imports[k].(report := r.imports[k].report, updatedAt := now)]
    ensures r.imports[k].report.Some? && r.imports[k].report.value !in db.reports
    ensures var id := r.imports[k].report.value;
      Bridged(r, id, db.imports[k], now.date) && r.reports == db.reports[id := r.reports[id]]
  {
    var rec := db.imports[k];
    var (db1, c) := GetOrCreateCategory(db, Capitalize(rec.carrier));
    var (db2, id) := CreateReport(db1, BridgeReport(rec, c, now.date));
    assert forall j :: 0 <= j < |db2.imports| ==> db2.imports[j].report != Some(id);
    SaveImport(db2, k, rec.(report := Some(id), updatedAt := now))
  }

  /** `_handle_report`: nothing unless the import succeeded; then the linked
      report is rewritten, or a new one is created and linked when there is
      none. Either way the import ends linked to the one report holding its
      data, and no other report changes. */
  function HandleReport(db: Db, k: nat, now: Moment): (r: Db)
    requires Valid(db) && k < |db.imports| && IsValidMoment(now) && db.imports[k].totalValue.Some?
    ensures Valid(r) && |r.imports| == |db.imports| && r.log == db.log
    ensures db.imports[k].status != Success ==> r == db
    ensures db.imports[k].status == Success ==>
              r.imports[k].report.Some?
              && Bridged(r, r.imports[k].report.value, db.imports[k], now.date)
              && r.reports == db.reports[r.imports[k].report.value := r.reports[r.imports[k].report.value]]
    ensures db.imports[k].status == Success && db.imports[k].report.Some? ==> r.imports == db.imports
    ensures db.imports[k].status == Success && db.imports[k].report.None? ==>
              r.imports[k].report.value !in db.reports
              && r.imports == db.imports[k := db.imports[k].(report := r.imports[k].report, updatedAt := now)]
  {
    if db.imports[k].status != Success then db
    else if db.imports[k].report.Some? then BridgeUpdate(db, k, now)
    else BridgeCreate(db, k, now)
  }

  // ---- persisting ----

  /** Import `k` rewritten as `rec`, then bridged to its report. */
  function Rewrite(db: Db, k: nat, rec: InvoiceImport, now: Moment): (r: Db)
    requires Valid(db) && k < |db.imports| && IsValidMoment(now)
    requires WellFormedImport(rec) && rec.totalValue.Some? && rec.updatedAt == now
    requires rec.report == db.imports[k].report
    requires forall j :: 0 <= j < |db.imports| && j != k ==> db.imports[j].fileHash != rec.fileHash
    ensures Valid(r) && r.log == db.log && |r.imports| == |db.imports|
    ensures r.imports == db.imports[k := r.imports[k]]
    ensures r.imports[k] == rec.(report := r.imports[k].report)
    ensures rec.status != Success ==> r.reports == db.reports && r.imports[k] == rec
    ensures rec.status == Success ==> r.imports[k].report.Some?
    ensures rec.report.Some? ==> r.reports.Keys == db.reports.Keys && r.imports[k].report == rec.report
  {
    var db1 := SaveImport(db, k, rec);
    HandleReport(db1, k, now)
  }

  /** One audit entry about import `k` on top of `db`. */
  function LogImport(db: Db, actor: Actor, action: Action, k: nat, before: Option<InvoiceImport>,
                     now: Moment): (r: Db)
    requires Valid(db) && k < |db.imports|
    requires before.Some? ==> WellFormedImport(before.value)
    ensures Valid(r) && r.imports == db.imports && r.reports == db.reports && r.categories == db.categories
    ensures |r.log| == |db.log| + 1 && r.log[..|db.log|] == db.log
    ensures r.log[|db.log|].action == action && r.log[|db.log|].entity == "InvoiceImport"
    ensures r.log[|db.log|].entityId == IntToString(k) && r.log[|db.log|].createdAt == now
  {
    var after := ImportDict(k, db.imports[k]);
    var prior := if before.Some? then Some(ImportDict(k, before.value)) else None;
    WithLog(db, LogAction(db.log, actor, action, "InvoiceImport", k, prior, Some(after), None, now))
  }

  /** The REPROCESS path: the record is rewritten in place, the bridge runs,
      and one REPROCESS entry records the record before (as the code has
      already marked it) and after. */
  function PersistExisting(db: Db, inp: Input, k: nat, h: string, meta: Meta, key: string,
                           x: Extracted, actor: Actor, now: Moment): (out: Outcome)
    requires Valid(db) && Sound(x) && IsValidMoment(now) && k < |db.imports|
    requires forall j :: 0 <= j < |db.imports| && j != k ==> db.imports[j].fileHash != h
    ensures out.Done? && Valid(out.db) && out.status == FinalStatus(x)
    ensures out.message == (if out.status == Success then ProcessedMessage else ReviewMessage)
    ensures |out.db.log| == |db.log| + 1 && out.db.log[..|db.log|] == db.log
    ensures out.db.log[|db.log|].action == Reprocess && out.db.log[|db.log|].entity == "InvoiceImport"
    ensures |out.db.imports| == |db.imports|
    ensures out.db.imports == db.imports[k := out.db.imports[k]]
    ensures out.db.imports[k] == WithData(db.imports[k], inp, h, meta, key, x, now).(report := out.db.imports[k].report)
    ensures out.status != Success ==> out.db.reports == db.reports && out.db.imports[k].report == db.imports[k].report
    ensures out.status == Success ==> out.db.imports[k].report.Some?
    ensures db.imports[k].report.Some? ==>
              out.db.reports.Keys == db.reports.Keys && out.db.imports[k].report == db.imports[k].report
  {
    var status := FinalStatus(x);
    var prev := db.imports[k];
    var marked := if status == PendingReview then prev.(errorCode := Some(MissingRequiredData)) else prev;
    var db2 := Rewrite(db, k, WithData(prev, inp, h, meta, key, x, now), now);
    Done(LogImport(db2, actor, Reprocess, k, Some(marked), now), status,
         if status == Success then ProcessedMessage else ReviewMessage)
  }

  /** The IMPORT path: a new record is appended, the bridge runs, and one
      IMPORT entry records the new record. */
  function PersistNew(db: Db, inp: Input, h: string, meta: Meta, key: string,
                      x: Extracted, actor: Actor, now: Moment): (out: Outcome)
    requires Valid(db) && Sound(x) && IsValidMoment(now) && FindByHash(db.imports, h).None?
    ensures out.Done? && Valid(out.db) && out.status == FinalStatus(x)
    ensures out.message == (if out.status == Success then ImportedMessage else ReviewMessage)
    ensures |out.db.log| == |db.log| + 1 && out.db.log[..|db.log|] == db.log
    ensures out.db.log[|db.log|].action == Import && out.db.log[|db.log|].entity == "InvoiceImport"
    ensures |out.db.imports| == |db.imports| + 1 && out.db.imports[..|db.imports|] == db.imports
    ensures var k := |db.imports|;
      out.db.imports[k] == WithData(NewImport("", "", 0, "", "", "", now), inp, h, meta, key, x, now)
                           .(report := out.db.imports[k].report)
      && (out.status != Success ==> out.db.reports == db.reports && out.db.imports[k].report.None?)
      && (out.status == Success ==> out.db.imports[k].report.Some?)
  {
    var status := FinalStatus(x);
    var rec := WithData(NewImport("", "", 0, "", "", "", now), inp, h, meta, key, x, now);
    var (db1, k) := AddImport(db, rec);
    var db2 := HandleReport(db1, k, now);
    Done(LogImport(db2, actor, Import, k, None, now), status,
         if status == Success then ImportedMessage else ReviewMessage)
  }

  /** The persist step. Rewriting a hash-less record with a hash another
      record already holds violates the unique constraint: the write is rolled
      back and the error escapes, since the handler's own save of the same
      record fails the same way. */
  function Persist(db: Db, inp: Input, existing: Option<nat>, h: string, meta: Meta, key: string,
                   x: Extracted, actor: Actor, now: Moment): (out: Outcome)
    requires Valid(db) && Sound(x) && IsValidMoment(now)
    requires existing.Some? ==> existing.value < |db.imports|
    requires existing.None? ==> FindByHash(db.imports, h).None?
    ensures out.Raised? <==> existing.Some? && FindByHash(db.imports, h).Some? && FindByHash(db.imports, h) != existing
    ensures out.Raised? ==> out.message == HashConflict
    ensures out.Done? && existing.Some? ==>
              (forall j :: 0 <= j < |db.imports| && j != existing.value ==> db.imports[j].fileHash != h)
              && out == PersistExisting(db, inp, existing.value, h, meta, key, x, actor, now)
    ensures existing.None? ==> out == PersistNew(db, inp, h, meta, key, x, actor, now)
    ensures out.Done? ==> out.status == FinalStatus(x)
  {
    match existing
    case Some(k) =>
      if FindByHash(db.imports, h).Some? && FindByHash(db.imports, h) != existing then Raised(HashConflict)
      else
        assert forall j :: 0 <= j < |db.imports| && j != k ==> db.imports[j].fileHash != h;
        PersistExisting(db, inp, k, h, meta, key, x, actor, now)
    case None => PersistNew(db, inp, h, meta, key, x, actor, now)
  }

  // ---- the ladder ----

  /** `existing_import`: the passed instance, or else the record holding the
      hash. */
  function Existing(db: Db, instance: Option<nat>, h: string): (r: Option<nat>)
    requires instance.Some? ==> instance.value < |db.imports|
    ensures r.Some? ==> r.value < |db.imports|
    ensures instance.Some? ==> r == instance
    ensures instance.None? ==> r == FindByHash(db.imports, h)
  {
    if instance.Some? then instance else FindByHash(db.imports, h)
  }

  /** `process_invoice` once the hash `h` is known: the active-duplicate
      check, the extraction and the write. */
  function AfterHash(db: Db, inp: Input, instance: Option<nat>, h: string, actor: Actor, now: Moment)
    : (out: Outcome)
    requires Valid(db) && InputOk(inp) && IsValidMoment(now)
    requires instance.Some? ==> instance.value < |db.imports|
    requires instance.Some? && db.imports[instance.value].fileHash != "" ==> h == db.imports[instance.value].fileHash
    ensures out.Done? ==> Valid(out.db)
    ensures out.Done? ==> out.status in {ImportStatus.Failed, Skipped, Success, PendingReview}
    ensures out.Done? ==> |db.imports| <= |out.db.imports| <= |db.imports| + 1
    ensures out.Raised? ==> instance.Some? && db.imports[instance.value].fileHash == ""
  {
    var existing := Existing(db, instance, h);
    if existing.Some? && IsActive(db, existing.value) then SkipActive(db, instance, now)
    else
      var meta := inp.metadata.GetOr(NoMeta);
      var key := CarrierKey(meta, inp.textSample);
      match Parsed(inp, ChooseParser(key))
      case Err(e) => FailExtraction(db, existing, "Erro na extração: " + e, now)
      case Ok(x) => Persist(db, inp.(hash := Ok(h)), existing, h, meta, key, x, actor, now)
  }

  /** `process_invoice(file_source, metadata, user, invoice_instance)`. */
  function ProcessInvoice(db: Db, inp: Input, instance: Option<nat>, actor: Actor, now: Moment): (out: Outcome)
    requires Valid(db) && InputOk(inp) && IsValidMoment(now)
    requires instance.Some? ==> instance.value < |db.imports|
    ensures out.Done? ==> Valid(out.db)
    ensures out.Done? ==> out.status in {ImportStatus.Failed, Skipped, Success, PendingReview}
    ensures out.Done? ==> |db.imports| <= |out.db.imports| <= |db.imports| + 1
    ensures out.Raised? ==> instance.Some? && db.imports[instance.value].fileHash == ""
  {
    match ResolveHash(db, instance, inp.hash)
    case Err(e) => FailHash(db, instance, "Erro no hash: " + e, now)
    case Ok(h) => AfterHash(db, inp, instance, h, actor, now)
  }

  // ---- the ladder, rung by rung ----

  /** A hash error ends the call with FAILED and the message; only a passed
      instance is marked FAILED with HASH_ERROR, and no report or audit entry
      is touched. */
  lemma HashErrorRung(db: Db, inp: Input, instance: Option<nat>, actor: Actor, now: Moment)
    requires Valid(db) && InputOk(inp) && IsValidMoment(now)
    requires instance.Some? ==> instance.value < |db.imports|
    requires inp.hash.Err? && (instance.None? || db.imports[instance.value].fileHash == "")
    ensures var out := ProcessInvoice(db, inp, instance, actor, now);
      out.Done? && out.status == ImportStatus.Failed && out.message == "Erro no hash: " + inp.hash.error
      && out.db.reports == db.reports && out.db.log == db.log
      && (instance.None? ==> out.db == db)
      && (instance.Some? ==> out.db.imports == db.imports[instance.value := db.imports[instance.value].(
            status := ImportStatus.Failed, errorMessage := Some(out.message), errorCode := Some(HashError),
            updatedAt := now)])
  {
  }

  /** A passed instance that already has a hash is never hashed again: what
      hashing the source would give does not matter. */
  lemma StoredHashReused(db: Db, inp: Input, i: nat, hashed: Result<string, string>, actor: Actor, now: Moment)
    requires Valid(db) && InputOk(inp) && IsValidMoment(now)
    requires i < |db.imports| && db.imports[i].fileHash != ""
    ensures ProcessInvoice(db, inp.(hash := hashed), Some(i), actor, now) == ProcessInvoice(db, inp, Some(i), actor, now)
  {
    var h := db.imports[i].fileHash;
    var inp' := inp.(hash := hashed);
    assert ResolveHash(db, Some(i), hashed) == ResolveHash(db, Some(i), inp.hash) == Ok(h);
    assert inp'.(hash := Ok(h)) == inp.(hash := Ok(h));
    assert Parsed(inp', ChooseParser(CarrierKey(inp'.metadata.GetOr(NoMeta), inp'.textSample)))
        == Parsed(inp, ChooseParser(CarrierKey(inp.metadata.GetOr(NoMeta), inp.textSample)));
    assert AfterHash(db, inp', Some(i), h, actor, now) == AfterHash(db, inp, Some(i), h, actor, now);
  }

  /** A record with this hash whose report is PENDING or APPROVED ends the
      call with SKIPPED: a passed instance becomes SKIPPED with
      DUPLICATE_ACTIVE, a record found by hash is left as it was, and nothing
      else changes. */
  lemma ActiveDuplicateRung(db: Db, inp: Input, instance: Option<nat>, actor: Actor, now: Moment, h: string)
    requires Valid(db) && InputOk(inp) && IsValidMoment(now)
    requires instance.Some? ==> instance.value < |db.imports|
    requires ResolveHash(db, instance, inp.hash) == Ok(h)
    requires Existing(db, instance, h).Some? && IsActive(db, Existing(db, instance, h).value)
    ensures var out := ProcessInvoice(db, inp, instance, actor, now);
      out == SkipActive(db, instance, now)
      && out.Done? && out.status == Skipped && out.message == SkippedMessage
      && out.db.reports == db.reports && out.db.log == db.log
      && (instance.None? ==> out.db == db)
  {
  }

  /** A parser error ends the call with FAILED; the existing record, if any,
      becomes FAILED with EXTRACTION_FAILED, and its report FAILED. No record
      is created and no audit entry written. */
  lemma ExtractionErrorRung(db: Db, inp: Input, instance: Option<nat>, actor: Actor, now: Moment, h: string)
    requires Valid(db) && InputOk(inp) && IsValidMoment(now)
    requires instance.Some? ==> instance.value < |db.imports|
    requires ResolveHash(db, instance, inp.hash) == Ok(h)
    requires !(Existing(db, instance, h).Some? && IsActive(db, Existing(db, instance, h).value))
    requires Parsed(inp, ChooseParser(CarrierKey(inp.metadata.GetOr(NoMeta), inp.textSample))).Err?
    ensures var out := ProcessInvoice(db, inp, instance, actor, now);
      var e := Parsed(inp, ChooseParser(CarrierKey(inp.metadata.GetOr(NoMeta), inp.textSample))).error;
      out == FailExtraction(db, Existing(db, instance, h), "Erro na extração: " + e, now)
      && out.Done? && out.status == ImportStatus.Failed
      && |out.db.imports| == |db.imports| && out.db.log == db.log
  {
  }

  /** Once the fields are extracted, the status is SUCCESS exactly when the
      total is present and non-zero and the due date is present; the
      confidence score plays no part: any other score gives the same
      outcome status. */
  lemma RoutingRung(db: Db, inp: Input, instance: Option<nat>, actor: Actor, now: Moment, h: string, c: int)
    requires Valid(db) && InputOk(inp) && IsValidMoment(now)
    requires instance.Some? ==> instance.value < |db.imports|
    requires ResolveHash(db, instance, inp.hash) == Ok(h)
    requires !(Existing(db, instance, h).Some? && IsActive(db, Existing(db, instance, h).value))
    requires inp.vivo.Ok? && inp.claro.Ok?
    ensures var out := ProcessInvoice(db, inp, instance, actor, now);
      var x := Parsed(inp, ChooseParser(CarrierKey(inp.metadata.GetOr(NoMeta), inp.textSample))).value;
      var out2 := ProcessInvoice(db, inp.(vivo := Ok(inp.vivo.value.(confidence := c)),
                                          claro := Ok(inp.claro.value.(confidence := c))), instance, actor, now);
      out.Done? ==>
        (out.status == Success <==> x.totalValue.Some? && x.totalValue.value != 0.0 && x.dueDate.Some?)
        && (out.status == PendingReview <==> !(x.totalValue.Some? && x.totalValue.value != 0.0 && x.dueDate.Some?))
        && out2.Done? && out2.status == out.status
  {
    var inp2 := inp.(vivo := Ok(inp.vivo.value.(confidence := c)), claro := Ok(inp.claro.value.(confidence := c)));
    var meta := inp.metadata.GetOr(NoMeta);
    var key := CarrierKey(meta, inp.textSample);
    var x := Parsed(inp, ChooseParser(key)).value;
    assert ResolveHash(db, instance, inp2.hash) == Ok(h);
    assert Parsed(inp2, ChooseParser(key)) == Ok(x.(confidence := c));
    ProcessIsPersist(db, inp, instance, actor, now, h);
    ProcessIsPersist(db, inp2, instance, actor, now, h);
    PersistIgnoresConfidence(db, inp.(hash := Ok(h)), inp2.(hash := Ok(h)), Existing(db, instance, h), h, meta, key,
                             x, c, actor, now);
  }

  /** The persisting stage's outcome status does not depend on the score. */
  lemma PersistIgnoresConfidence(db: Db, inp: Input, inp2: Input, existing: Option<nat>, h: string, meta: Meta,
                                 key: string, x: Extracted, c: int, actor: Actor, now: Moment)
    requires Valid(db) && Sound(x) && Sound(x.(confidence := c)) && IsValidMoment(now)
    requires existing.Some? ==> existing.value < |db.imports|
    requires existing.None? ==> FindByHash(db.imports, h).None?
    ensures var out := Persist(db, inp, existing, h, meta, key, x, actor, now);
      var out2 := Persist(db, inp2, existing, h, meta, key, x.(confidence := c), actor, now);
      out.Done? ==> out2.Done? && out2.status == out.status && out.status == FinalStatus(x)
  {
    assert FinalStatus(x.(confidence := c)) == FinalStatus(x);
  }

  /** Past the hash and duplicate checks, with the chosen parser succeeding,
      the importer is the persisting stage applied to that parser's data. */
  lemma ProcessIsPersist(db: Db, inp: Input, instance: Option<nat>, actor: Actor, now: Moment, h: string)
    requires Valid(db) && InputOk(inp) && IsValidMoment(now)
    requires instance.Some? ==> instance.value < |db.imports|
    requires ResolveHash(db, instance, inp.hash) == Ok(h)
    requires !(Existing(db, instance, h).Some? && IsActive(db, Existing(db, instance, h).value))
    requires Parsed(inp, ChooseParser(CarrierKey(inp.metadata.GetOr(NoMeta), inp.textSample))).Ok?
    ensures var meta := inp.metadata.GetOr(NoMeta); var key := CarrierKey(meta, inp.textSample);
      ProcessInvoice(db, inp, instance, actor, now)
         == Persist(db, inp.(hash := Ok(h)), Existing(db, instance, h), h, meta, key,
                    Parsed(inp, ChooseParser(key)).value, actor, now)
  {
  }

  /** An existing record that is not an active duplicate is reprocessed in
      place: no record is added, every other record is unchanged, the stored
      fields are the extracted ones, and one REPROCESS entry is logged. */
  lemma ReprocessInPlace(db: Db, inp: Input, instance: Option<nat>, actor: Actor, now: Moment, h: string, k: nat)
    requires Valid(db) && InputOk(inp) && IsValidMoment(now)
    requires instance.Some? ==> instance.value < |db.imports|
    requires ResolveHash(db, instance, inp.hash) == Ok(h)
    requires Existing(db, instance, h) == Some(k) && !IsActive(db, k)
    requires Parsed(inp, ChooseParser(CarrierKey(inp.metadata.GetOr(NoMeta), inp.textSample))).Ok?
    ensures var out := ProcessInvoice(db, inp, instance, actor, now);
      out.Done? ==>
        |out.db.imports| == |db.imports| && out.db.imports == db.imports[k := out.db.imports[k]]
        && out.db.imports[k].fileHash == h && out.db.imports[k].status == out.status
        && |out.db.log| == |db.log| + 1 && out.db.log[|db.log|].action == Reprocess
  {
  }

  /** A hash no record holds, with no instance passed, adds exactly one
      record, at the end, and logs one IMPORT entry. */
  lemma NewRecordAppended(db: Db, inp: Input, actor: Actor, now: Moment, h: string)
    requires Valid(db) && InputOk(inp) && IsValidMoment(now)
    requires inp.hash == Ok(h) && FindByHash(db.imports, h).None?
    requires Parsed(inp, ChooseParser(CarrierKey(inp.metadata.GetOr(NoMeta), inp.textSample))).Ok?
    ensures var out := ProcessInvoice(db, inp, None, actor, now);
      out.Done? && |out.db.imports| == |db.imports| + 1 && out.db.imports[..|db.imports|] == db.imports
      && out.db.imports[|db.imports|].fileHash == h
      && |out.db.log| == |db.log| + 1 && out.db.log[|db.log|].action == Import
  {
  }

  /** Reprocessing an import that already has a report rewrites that report
      and never creates a second one. */
  lemma NoSecondReport(db: Db, inp: Input, instance: Option<nat>, actor: Actor, now: Moment, h: string, k: nat)
    requires Valid(db) && InputOk(inp) && IsValidMoment(now)
    requires instance.Some? ==> instance.value < |db.imports|
    requires ResolveHash(db, instance, inp.hash) == Ok(h)
    requires Existing(db, instance, h) == Some(k) && db.imports[k].report.Some?
    ensures var out := ProcessInvoice(db, inp, instance, actor, now);
      out.Done? ==> out.db.reports.Keys == db.reports.Keys && out.db.imports[k].report == db.imports[k].report
  {
    var key := CarrierKey(inp.metadata.GetOr(NoMeta), inp.textSample);
    if !IsActive(db, k) && Parsed(inp, ChooseParser(key)).Ok? {
      var x := Parsed(inp, ChooseParser(key)).value;
      var job := inp.(hash := Ok(h));
      ProcessIsPersist(db, inp, instance, actor, now, h);
      var out := Persist(db, job, Some(k), h, inp.metadata.GetOr(NoMeta), key, x, actor, now);
      assert out.Done? ==> out == PersistExisting(db, job, k, h, inp.metadata.GetOr(NoMeta), key, x, actor, now);
    }
  }

  /** The stored defaults: a missing total is stored as 0.00, an unresolved
      carrier as OUTROS, missing hints as the current year, 'N/A' and the
      English month; the error code is empty exactly on SUCCESS. */
  lemma StoredDefaults(rec: InvoiceImport, inp: Input, h: string, key: string, x: Extracted, now: Moment)
    requires Sound(x) && IsValidMoment(now) && WellFormedImport(rec)
    ensures var r := WithData(rec, inp, h, NoMeta, key, x, now);
      (x.totalValue.None? ==> r.totalValue == Some(0))
      && (key == "" ==> r.carrier == "OUTROS")
      && r.year == now.date.year && r.city == "N/A" && r.month == EnglishMonth(now.date.month)
      && (r.errorCode.None? <==> r.status == Success)
      && (r.errorCode.Some? <==> !TruthyAmount(x.totalValue) || x.dueDate.None?)
  {
    QuantizeExact(0);
  }
}
