/** `Category` and `Report`, the governed expense reports. */
module Reports {
  import opened Wrappers
  import opened Dates
  import opened Audit

  datatype ReportStatus = Pending | Approved | Canceled | Failed | Review

  /** Every report status, in declaration order (`Report.Status.choices`). */
  const AllStatuses: seq<ReportStatus> := [Pending, Approved, Canceled, Failed, Review]

  /** The stored value of a status: upper-case letters that fit the
      20-character `status` column. */
  function StatusName(s: ReportStatus): (name: string)
    ensures 0 < |name| <= 20
    ensures forall i :: 0 <= i < |name| ==> 'A' <= name[i] <= 'Z'
  {
    match s
    case Pending => "PENDING"
    case Approved => "APPROVED"
    case Canceled => "CANCELED"
    case Failed => "FAILED"
    case Review => "REVIEW"
  }

  /** `get_status_display()`. */
  function StatusDisplay(s: ReportStatus): string {
    match s
    case Pending => "Pendente"
    case Approved => "Aprovado"
    case Canceled => "Cancelado"
    case Failed => "Falha"
    case Review => "Aguardando Revisão"
  }

  /** Reads a stored or requested status string; anything outside the five
      choices is not a status. */
  function ParseStatus(name: string): (r: Option<ReportStatus>)
    ensures r.Some? ==> StatusName(r.value) == name
  {
    if name == "PENDING" then Some(Pending)
    else if name == "APPROVED" then Some(Approved)
    else if name == "CANCELED" then Some(Canceled)
    else if name == "FAILED" then Some(Failed)
    else if name == "REVIEW" then Some(Review)
    else None
  }

  /** Reading a status name back gives the status; the choices list is complete. */
  lemma StatusNameRoundTrip(s: ReportStatus)
    ensures ParseStatus(StatusName(s)) == Some(s)
    ensures s in AllStatuses
  {
  }

  /** A category; `name` is unique and required, `description` may be blank. */
  datatype Category = Category(name: string, description: string)

  /** A report. `category` is the id of a category that must exist, the total
      is in cents, `dueDate` is nullable. The model places no sign constraint
      on the total. */
  datatype Report = Report(
    title: string,
    referenceDate: Date,
    category: nat,
    totalValue: int,
    status: ReportStatus,
    dueDate: Option<Date>)

  /** A report whose dates are real calendar dates. */
  predicate WellFormedReport(r: Report) {
    IsValid(r.referenceDate) && (r.dueDate.Some? ==> IsValid(r.dueDate.value))
  }

  /** `Report.objects.create(...)` without a status: the status defaults to PENDING. */
  function NewReport(title: string, referenceDate: Date, category: nat,
                     totalValue: int, dueDate: Option<Date>): (r: Report)
    ensures r.status == Pending
    ensures r.title == title && r.referenceDate == referenceDate && r.category == category
    ensures r.totalValue == totalValue && r.dueDate == dueDate
  {
    Report(title, referenceDate, category, totalValue, Pending, dueDate)
  }

  function DateValue(d: Option<Date>): Value {
    if d.Some? then Day(d.value) else Null
  }

  /** `model_to_dict(report)`: the editable fields with the row id; the
      automatic timestamps are not editable and so are absent. */
  function ReportDict(id: nat, r: Report): (d: Dict<Value>)
    requires WellFormedReport(r)
    ensures Serializable(d)
    ensures Lookup(d, "status") == Some(Str(StatusName(r.status)))
    ensures Lookup(d, "_workflow_comment").None?
  {
    var d := [("id", Int(id)), ("title", Str(r.title)), ("reference_date", Day(r.referenceDate)),
      ("category", Int(r.category)), ("total_value", Dec(r.totalValue)),
      ("status", Str(StatusName(r.status))), ("due_date", DateValue(r.dueDate))];
    LookupFirst(d, 5);
    d
  }
}
