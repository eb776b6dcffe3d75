/** `ReportSerializer`: the report as the API shows it, with the derived
    read-only fields resolved against the database at the time of reading. */
module ReportSerializer {
  import opened Wrappers
  import opened Dates
  import opened Reports
  import opened Invoices
  import opened Database

  datatype ReportView = ReportView(
    id: nat,
    title: string,
    referenceDate: Date,
    category: nat,
    totalValue: int,
    status: ReportStatus,
    dueDate: Option<Date>,
    categoryName: string,
    statusDisplay: string,
    invoiceSourceId: Option<nat>,
    confidenceScore: Option<int>)

  /** The fields a client may write; the timestamps and the four derived
      fields are read-only. */
  const WritableFields: set<string> := {"title", "reference_date", "category", "total_value", "status", "due_date"}
  const ReadOnlyFields: set<string> :=
    {"id", "created_at", "updated_at", "category_name", "status_display", "invoice_source_id", "confidence_score"}

  lemma FieldSets()
    ensures WritableFields !! ReadOnlyFields
    ensures "status" in WritableFields && "created_at" in ReadOnlyFields && "updated_at" in ReadOnlyFields
  {
  }

  /** Serializes report `id`: the category name and status label are derived;
      the source import and its confidence come from the reverse link. */
  function Represent(db: Db, id: nat): (v: ReportView)
    requires Valid(db) && id in db.reports
    ensures v.id == id && v.status == db.reports[id].status && v.totalValue == db.reports[id].totalValue
    ensures v.categoryName == db.categories[db.reports[id].category].name
    ensures v.statusDisplay == StatusDisplay(db.reports[id].status)
    ensures v.invoiceSourceId.None? <==> forall i :: 0 <= i < |db.imports| ==> db.imports[i].report != Some(id)
    ensures v.invoiceSourceId.Some? ==> (v.invoiceSourceId.value < |db.imports|
                                         && db.imports[v.invoiceSourceId.value].report == Some(id))
    ensures v.confidenceScore.Some? <==> v.invoiceSourceId.Some?
    ensures v.invoiceSourceId.Some? ==> v.confidenceScore == Some(db.imports[v.invoiceSourceId.value].confidence)
  {
    var r := db.reports[id];
    var source := SourceOf(db.imports, id);
    ReportView(id, r.title, r.referenceDate, r.category, r.totalValue, r.status, r.dueDate,
               db.categories[r.category].name, StatusDisplay(r.status), source,
               if source.Some? then Some(db.imports[source.value].confidence) else None)
  }

  /** The confidence shown is read live: after the linked import's score
      changes, the report shows the new score. */
  lemma ConfidenceIsLive(db: Db, id: nat, i: nat, score: int)
    requires Valid(db) && id in db.reports && i < |db.imports| && db.imports[i].report == Some(id)
    ensures var db2 := db.(imports := db.imports[i := db.imports[i].(confidence := score)]);
      Valid(db2) && Represent(db2, id).invoiceSourceId == Some(i)
      && Represent(db2, id).confidenceScore == Some(score)
  {
    var db2 := db.(imports := db.imports[i := db.imports[i].(confidence := score)]);
    assert forall j :: 0 <= j < |db2.imports| ==> db2.imports[j].report == db.imports[j].report;
    assert forall j :: 0 <= j < |db2.imports| ==> db2.imports[j].fileHash == db.imports[j].fileHash;
    assert forall j :: 0 <= j < |db2.imports| ==> db2.imports[j].dueDate == db.imports[j].dueDate;
    assert Valid(db2);
    var v := Represent(db2, id);
    assert v.invoiceSourceId.value == i;
  }
}
