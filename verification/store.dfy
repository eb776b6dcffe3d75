/** The database as one immutable value: import rows (never deleted, id =
    position), reports and categories keyed by id with the next free id, and
    the audit log. Each operation is one atomic step. */
module Database {
  import opened Wrappers
  import opened Reports
  import opened Invoices
  import opened Audit
  import opened Text

  datatype Db = Db(
    imports: seq<InvoiceImport>,
    reports: map<nat, Report>,
    nextReport: nat,
    categories: map<nat, Category>,
    nextCategory: nat,
    log: seq<AuditEntry>)

  /** `file_hash` is unique across all imports. */
  predicate HashesUnique(imports: seq<InvoiceImport>) {
    forall i, j :: 0 <= i < j < |imports| ==> imports[i].fileHash != imports[j].fileHash
  }

  /** The report link is one-to-one. */
  predicate LinksUnique(imports: seq<InvoiceImport>) {
    forall i, j :: 0 <= i < j < |imports| && imports[i].report.Some? ==> imports[i].report != imports[j].report
  }

  /** Every link names an existing report. */
  predicate LinksResolve(db: Db) {
    forall i :: 0 <= i < |db.imports| && db.imports[i].report.Some? ==> db.imports[i].report.value in db.reports
  }

  /** Every report's category exists. */
  predicate CategoriesResolve(db: Db) {
    forall id :: id in db.reports ==> db.reports[id].category in db.categories
  }

  /** Category names are unique. */
  predicate NamesUnique(categories: map<nat, Category>) {
    forall a, b :: a in categories && b in categories && a != b ==> categories[a].name != categories[b].name
  }

  predicate IdsFresh(db: Db) {
    (forall id :: id in db.reports ==> id < db.nextReport)
    && (forall id :: id in db.categories ==> id < db.nextCategory)
  }

  predicate RowsWellFormed(db: Db) {
    (forall id :: id in db.reports ==> WellFormedReport(db.reports[id]))
    && (forall i :: 0 <= i < |db.imports| ==> WellFormedImport(db.imports[i]))
  }

  /** The constraints the schema enforces, plus fresh ids. */
  predicate Valid(db: Db) {
    HashesUnique(db.imports) && LinksUnique(db.imports) && LinksResolve(db)
    && CategoriesResolve(db) && NamesUnique(db.categories) && IdsFresh(db) && RowsWellFormed(db)
  }

  const Empty: Db := Db([], map[], 0, map[], 0, [])

  lemma EmptyValid()
    ensures Valid(Empty)
  {
  }

  /** The database with its audit log replaced; the log is not constrained. */
  function WithLog(db: Db, log: seq<AuditEntry>): (r: Db)
    requires Valid(db)
    ensures Valid(r) && r.log == log
    ensures r.imports == db.imports && r.reports == db.reports && r.categories == db.categories
    ensures r.nextReport == db.nextReport && r.nextCategory == db.nextCategory
  {
    db.(log := log)
  }

  // ---- lookups ----

  /** `InvoiceImport.objects.filter(file_hash=h).first()`. */
  function FindByHash(imports: seq<InvoiceImport>, h: string): (r: Option<nat>)
    ensures r.Some? ==> r.value < |imports| && imports[r.value].fileHash == h
    ensures r.None? <==> forall i :: 0 <= i < |imports| ==> imports[i].fileHash != h
  {
    if |imports| == 0 then None
    else
      var r := FindByHash(imports[..|imports| - 1], h);
      if r.Some? then r
      else if imports[|imports| - 1].fileHash == h then Some(|imports| - 1)
      else None
  }

  /** With unique hashes, the record found for a hash is the only one. */
  lemma FindByHashUnique(imports: seq<InvoiceImport>, h: string, i: nat)
    requires HashesUnique(imports) && i < |imports| && imports[i].fileHash == h
    ensures FindByHash(imports, h) == Some(i)
  {
  }

  /** The category with `name` among ids `k .. bound - 1`. */
  function FindCategoryFrom(categories: map<nat, Category>, name: string, k: nat, bound: nat): (r: Option<nat>)
    ensures r.Some? ==> k <= r.value < bound && r.value in categories && categories[r.value].name == name
    ensures r.None? ==> forall id :: k <= id < bound && id in categories ==> categories[id].name != name
    decreases bound - k
  {
    if k >= bound then None
    else if k in categories && categories[k].name == name then Some(k)
    else FindCategoryFrom(categories, name, k + 1, bound)
  }

  /** `Category.objects.filter(name=name).first()`. */
  function FindCategory(db: Db, name: string): (r: Option<nat>)
    requires IdsFresh(db)
    ensures r.Some? ==> r.value in db.categories && db.categories[r.value].name == name
    ensures r.None? <==> forall id :: id in db.categories ==> db.categories[id].name != name
  {
    FindCategoryFrom(db.categories, name, 0, db.nextCategory)
  }

  /** The import whose `report` is `id` (the reverse `invoice_source` link). */
  function SourceOf(imports: seq<InvoiceImport>, id: nat): (r: Option<nat>)
    ensures r.Some? ==> r.value < |imports| && imports[r.value].report == Some(id)
    ensures r.None? <==> forall i :: 0 <= i < |imports| ==> imports[i].report != Some(id)
  {
    if |imports| == 0 then None
    else
      var r := SourceOf(imports[..|imports| - 1], id);
      if r.Some? then r
      else if imports[|imports| - 1].report == Some(id) then Some(|imports| - 1)
      else None
  }

  /** The linked report, when the import has one. */
  function LinkedReport(db: Db, i: nat): (r: Option<Report>)
    requires Valid(db) && i < |db.imports|
    ensures r.Some? <==> db.imports[i].report.Some?
    ensures r.Some? ==> r.value == db.reports[db.imports[i].report.value]
  {
    match db.imports[i].report
    case None => None
    case Some(id) => Some(db.reports[id])
  }

  // ---- writes ----

  /** `Category.objects.get_or_create(name=name)`: the existing category with
      that name, or a new one with an empty description. */
  function GetOrCreateCategory(db: Db, name: string): (r: (Db, nat))
    requires Valid(db)
    ensures Valid(r.0)
    ensures r.1 in r.0.categories && r.0.categories[r.1].name == name
    ensures r.0.imports == db.imports && r.0.reports == db.reports && r.0.log == db.log
    ensures r.0.categories.Keys >= db.categories.Keys
    ensures FindCategory(db, name).Some? ==> r.0 == db
    ensures FindCategory(db, name).None? ==> r.1 !in db.categories && r.0.categories == db.categories[r.1 := Category(name, "")]
  {
    match FindCategory(db, name)
    case Some(id) => (db, id)
    case None =>
      var id := db.nextCategory;
      (db.(categories := db.categories[id := Category(name, "")], nextCategory := id + 1), id)
  }

  /** `Report.objects.create(...)`: stores the report under a fresh id. */
  function CreateReport(db: Db, report: Report): (r: (Db, nat))
    requires Valid(db) && WellFormedReport(report) && report.category in db.categories
    ensures Valid(r.0)
    ensures r.1 !in db.reports && r.0.reports == db.reports[r.1 := report]
    ensures r.0.imports == db.imports && r.0.categories == db.categories && r.0.log == db.log
  {
    var id := db.nextReport;
    (db.(reports := db.reports[id := report], nextReport := id + 1), id)
  }

  /** `report.save()` for an existing report. */
  function SaveReport(db: Db, id: nat, report: Report): (r: Db)
    requires Valid(db) && id in db.reports && WellFormedReport(report) && report.category in db.categories
    ensures Valid(r)
    ensures r.reports == db.reports[id := report] && r.reports.Keys == db.reports.Keys
    ensures r.imports == db.imports && r.categories == db.categories && r.log == db.log
  {
    db.(reports := db.reports[id := report])
  }

  /** Clears every import's link to `id` (`on_delete=SET_NULL`). */
  function Unlink(imports: seq<InvoiceImport>, id: nat): (r: seq<InvoiceImport>)
    ensures |r| == |imports|
    ensures forall i :: 0 <= i < |imports| ==>
      r[i] == (if imports[i].report == Some(id) then imports[i].(report := None) else imports[i])
  {
    seq(|imports|, i requires 0 <= i < |imports| =>
      if imports[i].report == Some(id) then imports[i].(report := None) else imports[i])
  }

  /** Deleting a report: imports linked to it stay, with their link cleared. */
  function DeleteReport(db: Db, id: nat): (r: Db)
    requires Valid(db) && id in db.reports
    ensures Valid(r)
    ensures r.reports == db.reports - {id} && r.imports == Unlink(db.imports, id)
    ensures r.categories == db.categories && r.log == db.log
  {
    var imports := Unlink(db.imports, id);
    assert LinksUnique(imports) by {
      forall i, j | 0 <= i < j < |imports| && imports[i].report.Some?
        ensures imports[i].report != imports[j].report
      {
      }
    }
    db.(reports := db.reports - {id}, imports := imports)
  }

  /** After a report is deleted no import links to it, and every import
      survives with only its link possibly cleared. */
  lemma DeleteReportKeepsImports(db: Db, id: nat, i: nat)
    requires Valid(db) && id in db.reports
    ensures var r := DeleteReport(db, id);
      SourceOf(r.imports, id).None? && |r.imports| == |db.imports|
      && (i < |db.imports| ==>
            r.imports[i].(report := None) == db.imports[i].(report := None)
            && (r.imports[i].report.Some? ==> r.imports[i] == db.imports[i]))
  {
    var r := DeleteReport(db, id);
    assert forall j :: 0 <= j < |r.imports| ==> r.imports[j].report != Some(id);
  }

  datatype CategoryError = NameRequired | NameTaken | Protected

  /** Creating a category through its serializer: the name and the
      description are stripped of surrounding whitespace; the stripped name
      must be non-blank and unused. */
  function CreateCategory(db: Db, name: string, description: string): (r: Result<(Db, nat), CategoryError>)
    requires Valid(db)
    ensures r.Ok? <==> PyStrip(name) != "" && FindCategory(db, PyStrip(name)).None?
    ensures PyStrip(name) == "" ==> r == Err(NameRequired)
    ensures PyStrip(name) != "" && FindCategory(db, PyStrip(name)).Some? ==> r == Err(NameTaken)
    ensures r.Ok? ==> (Valid(r.value.0) && r.value.1 !in db.categories
                       && r.value.0.categories
                          == db.categories[r.value.1 := Category(PyStrip(name), PyStrip(description))]
                       && r.value.0.reports == db.reports && r.value.0.imports == db.imports
                       && r.value.0.log == db.log)
  {
    var stripped := PyStrip(name);
    if stripped == "" then Err(NameRequired)
    else if FindCategory(db, stripped).Some? then Err(NameTaken)
    else
      var id := db.nextCategory;
      Ok((db.(categories := db.categories[id := Category(stripped, PyStrip(description))],
              nextCategory := id + 1), id))
  }

  /** Surrounding whitespace never changes the outcome: a padded name is
      refused or stored exactly as its stripped form; in particular a name
      differing from a stored one only by padding is taken, and one made of
      whitespace alone is blank. */
  lemma CreateCategoryIgnoresPadding(db: Db, name: string, description: string)
    requires Valid(db)
    ensures CreateCategory(db, name, description) == CreateCategory(db, PyStrip(name), description)
    ensures (exists id :: id in db.categories && db.categories[id].name == PyStrip(name)) ==>
      CreateCategory(db, name, description) == Err(NameTaken) || PyStrip(name) == ""
    ensures (forall i :: 0 <= i < |name| ==> IsPyWhitespace(name[i])) ==>
      CreateCategory(db, name, description) == Err(NameRequired)
  {
    TrimIdempotent(name, IsPyWhitespace);
  }

  /** Deleting a category: refused while any report refers to it
      (`on_delete=PROTECT`). */
  function DeleteCategory(db: Db, id: nat): (r: Result<Db, CategoryError>)
    requires Valid(db) && id in db.categories
    ensures r.Err? <==> exists rid :: rid in db.reports && db.reports[rid].category == id
    ensures r.Ok? ==> (Valid(r.value) && r.value.categories == db.categories - {id}
                       && r.value.reports == db.reports && r.value.imports == db.imports)
  {
    if exists rid :: rid in db.reports && db.reports[rid].category == id then Err(Protected)
    else Ok(db.(categories := db.categories - {id}))
  }

  /** Overwrites import `i` with a record that keeps the hash and link
      constraints. */
  function SaveImport(db: Db, i: nat, rec: InvoiceImport): (r: Db)
    requires Valid(db) && i < |db.imports| && WellFormedImport(rec)
    requires forall j :: 0 <= j < |db.imports| && j != i ==> db.imports[j].fileHash != rec.fileHash
    requires rec.report.Some? ==> (rec.report.value in db.reports
                                   && forall j :: 0 <= j < |db.imports| && j != i ==> db.imports[j].report != rec.report)
    ensures Valid(r)
    ensures r.imports == db.imports[i := rec]
    ensures r.reports == db.reports && r.categories == db.categories && r.log == db.log
  {
    db.(imports := db.imports[i := rec])
  }

  /** `save()` of import `i` with its hash and report link as they are: the
      constraints hold without further checks. */
  function Resave(db: Db, i: nat, rec: InvoiceImport): (r: Db)
    requires Valid(db) && i < |db.imports| && WellFormedImport(rec)
    requires rec.fileHash == db.imports[i].fileHash && rec.report == db.imports[i].report
    ensures Valid(r) && r == SaveImport(db, i, rec)
    ensures r.imports == db.imports[i := rec]
    ensures r.reports == db.reports && r.categories == db.categories && r.log == db.log
  {
    assert forall j :: 0 <= j < |db.imports| && j != i ==> db.imports[j].fileHash != rec.fileHash by {
      forall j | 0 <= j < |db.imports| && j != i
        ensures db.imports[j].fileHash != rec.fileHash
      {
        if j < i { assert db.imports[j].fileHash != db.imports[i].fileHash; }
        else { assert db.imports[i].fileHash != db.imports[j].fileHash; }
      }
    }
    assert rec.report.Some? ==> forall j :: 0 <= j < |db.imports| && j != i ==> db.imports[j].report != rec.report by {
      if rec.report.Some? {
        forall j | 0 <= j < |db.imports| && j != i
          ensures db.imports[j].report != rec.report
        {
          if j < i {
            if db.imports[j].report.Some? { assert db.imports[j].report != db.imports[i].report; }
          } else {
            assert db.imports[i].report != db.imports[j].report;
          }
        }
      }
    }
    SaveImport(db, i, rec)
  }

  /** Appends a new import row; its id is its position. */
  function AddImport(db: Db, rec: InvoiceImport): (r: (Db, nat))
    requires Valid(db) && WellFormedImport(rec) && rec.report.None?
    requires FindByHash(db.imports, rec.fileHash).None?
    ensures Valid(r.0)
    ensures r.1 == |db.imports| && r.0.imports == db.imports + [rec]
    ensures r.0.reports == db.reports && r.0.categories == db.categories && r.0.log == db.log
  {
    (db.(imports := db.imports + [rec]), |db.imports|)
  }
}
