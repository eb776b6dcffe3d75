/** The dashboard aggregations of the reports views: the status summary with
    its overdue bucket, and the month-over-month insights. `today` and the
    import rows come in as parameters. */
module Dashboard {
  import opened Text
  import opened Dates
  import opened Money
  import opened Reports
  import opened Invoices
  import opened Database

  /** A count and the sum of the totals (in cents) of the reports counted. */
  datatype Bucket = Bucket(count: nat, total: int)

  /** The report querysets the dashboard aggregates over. */
  datatype Filter =
    | All
    | WithStatus(status: ReportStatus)
    | Open                               // neither approved nor canceled
    | OverdueOn(today: Date)
    | BillableIn(start: Date, end: Date) // not canceled or failed, reference date in [start, end)

  /** A report is overdue when it has a due date before today and is neither
      approved nor canceled. */
  predicate IsOverdue(r: Report, today: Date) {
    r.dueDate.Some? && Before(r.dueDate.value, today) && r.status != Approved && r.status != Canceled
  }

  /** Reports counted in the financial totals: neither canceled nor failed. */
  predicate Billable(r: Report) {
    r.status != Canceled && r.status != ReportStatus.Failed
  }

  predicate InWindow(d: Date, start: Date, end: Date) {
    !Before(d, start) && Before(d, end)
  }

  predicate Matches(f: Filter, r: Report) {
    match f
    case All => true
    case WithStatus(s) => r.status == s
    case Open => r.status != Approved && r.status != Canceled
    case OverdueOn(today) => IsOverdue(r, today)
    case BillableIn(start, end) => Billable(r) && InWindow(r.referenceDate, start, end)
  }

  /** Count and total of the reports with id below `k` that `f` selects. */
  function Tally(reports: map<nat, Report>, f: Filter, k: nat): (b: Bucket)
    ensures b.count <= k
    decreases k
  {
    if k == 0 then Bucket(0, 0)
    else
      var b := Tally(reports, f, k - 1);
      if k - 1 in reports && Matches(f, reports[k - 1]) then Bucket(b.count + 1, b.total + reports[k - 1].totalValue)
      else b
  }

  /** A filter that selects none of the reports counts nothing. */
  lemma {:induction false} TallyNone(reports: map<nat, Report>, f: Filter, k: nat)
    requires forall id :: id in reports && id < k ==> !Matches(f, reports[id])
    ensures Tally(reports, f, k) == Bucket(0, 0)
  {
    if k > 0 {
      TallyNone(reports, f, k - 1);
    }
  }

  /** A filter that selects fewer reports never counts more of them. */
  lemma {:induction false} TallyMonotone(reports: map<nat, Report>, f: Filter, g: Filter, k: nat)
    requires forall r :: Matches(f, r) ==> Matches(g, r)
    ensures Tally(reports, f, k).count <= Tally(reports, g, k).count
  {
    if k > 0 {
      TallyMonotone(reports, f, g, k - 1);
    }
  }

  /** One step of a tally: the report with id `k - 1` adds one when `f`
      selects it. */
  lemma TallyStep(reports: map<nat, Report>, f: Filter, k: nat)
    requires k > 0
    ensures Tally(reports, f, k).count
         == Tally(reports, f, k - 1).count + (if k - 1 in reports && Matches(f, reports[k - 1]) then 1 else 0)
  {
  }

  /** Each report has exactly one of the five statuses. */
  lemma OneStatus(r: Report)
    ensures (if Matches(WithStatus(ReportStatus.Pending), r) then 1 else 0)
          + (if Matches(WithStatus(Approved), r) then 1 else 0)
          + (if Matches(WithStatus(Canceled), r) then 1 else 0)
          + (if Matches(WithStatus(ReportStatus.Failed), r) then 1 else 0)
          + (if Matches(WithStatus(Review), r) then 1 else 0) == 1
  {
  }

  /** The five per-status counts add up to the number of reports. */
  lemma {:induction false} TallyPartition(reports: map<nat, Report>, k: nat)
    ensures Tally(reports, WithStatus(ReportStatus.Pending), k).count
          + Tally(reports, WithStatus(Approved), k).count
          + Tally(reports, WithStatus(Canceled), k).count
          + Tally(reports, WithStatus(ReportStatus.Failed), k).count
          + Tally(reports, WithStatus(Review), k).count
          == Tally(reports, All, k).count
  {
    if k > 0 {
      TallyPartition(reports, k - 1);
      TallyStep(reports, WithStatus(ReportStatus.Pending), k);
      TallyStep(reports, WithStatus(Approved), k);
      TallyStep(reports, WithStatus(Canceled), k);
      TallyStep(reports, WithStatus(ReportStatus.Failed), k);
      TallyStep(reports, WithStatus(Review), k);
      TallyStep(reports, All, k);
      if k - 1 in reports {
        OneStatus(reports[k - 1]);
      }
    }
  }

  /** The open reports are the pending, review and failed ones. */
  lemma {:induction false} TallyOpen(reports: map<nat, Report>, k: nat)
    ensures Tally(reports, Open, k).count
         == Tally(reports, WithStatus(ReportStatus.Pending), k).count
          + Tally(reports, WithStatus(Review), k).count
          + Tally(reports, WithStatus(ReportStatus.Failed), k).count
  {
    if k > 0 {
      TallyOpen(reports, k - 1);
    }
  }

  // ---- status summary ----

  const OverdueKey: string := "OVERDUE"

  /** `DashboardStatusSummaryView.get`: one bucket per report status, zero when
      no report has it, plus the OVERDUE bucket. */
  function StatusSummary(db: Db, today: Date): (m: map<string, Bucket>)
    ensures m.Keys == {"PENDING", "APPROVED", "CANCELED", "FAILED", "REVIEW", OverdueKey}
    ensures forall s :: s in AllStatuses ==> m[StatusName(s)] == Tally(db.reports, WithStatus(s), db.nextReport)
    ensures m[OverdueKey] == Tally(db.reports, OverdueOn(today), db.nextReport)
  {
    map[StatusName(ReportStatus.Pending) := Tally(db.reports, WithStatus(ReportStatus.Pending), db.nextReport),
        StatusName(Approved) := Tally(db.reports, WithStatus(Approved), db.nextReport),
        StatusName(Canceled) := Tally(db.reports, WithStatus(Canceled), db.nextReport),
        StatusName(ReportStatus.Failed) := Tally(db.reports, WithStatus(ReportStatus.Failed), db.nextReport),
        StatusName(Review) := Tally(db.reports, WithStatus(Review), db.nextReport),
        OverdueKey := Tally(db.reports, OverdueOn(today), db.nextReport)]
  }

  /** The status buckets partition the reports; overdue reports are among the
      PENDING, REVIEW and FAILED ones; a report without a due date is never
      overdue. */
  lemma SummaryCounts(db: Db, today: Date)
    ensures var m := StatusSummary(db, today);
      m["PENDING"].count + m["APPROVED"].count + m["CANCELED"].count + m["FAILED"].count + m["REVIEW"].count
        == Tally(db.reports, All, db.nextReport).count
    ensures var m := StatusSummary(db, today);
      m[OverdueKey].count <= m["PENDING"].count + m["REVIEW"].count + m["FAILED"].count
    ensures forall r: Report :: r.dueDate.None? ==> !IsOverdue(r, today)
  {
    var k := db.nextReport;
    TallyPartition(db.reports, k);
    TallyMonotone(db.reports, OverdueOn(today), Open, k);
    TallyOpen(db.reports, k);
  }

  // ---- insights ----

  /** Month-over-month variation in percent. */
  function Variation(current: real, last: real): (v: real)
    ensures last > 0.0 ==> v * last == (current - last) * 100.0
    ensures last <= 0.0 ==> (v == 100.0 <==> current > 0.0) && (v == 0.0 <==> current <= 0.0)
  {
    if last > 0.0 then ((current - last) / last) * 100.0
    else if current > 0.0 then 100.0
    else 0.0
  }

  /** With a positive last total, the variation exceeds 10% exactly when the
      current total exceeds 110% of it, and falls below -10% exactly when it is
      under 90%. */
  lemma VariationThresholds(current: real, last: real)
    requires last > 0.0
    ensures Variation(current, last) > 10.0 <==> current > last * 1.1
    ensures Variation(current, last) < -10.0 <==> current < last * 0.9
    ensures Variation(current, last) == 0.0 <==> current == last
  {
    PercentThresholds(Variation(current, last), current, last);
  }

  lemma PercentThresholds(v: real, current: real, last: real)
    requires last > 0.0 && v * last == (current - last) * 100.0
    ensures v > 10.0 <==> current > last * 1.1
    ensures v < -10.0 <==> current < last * 0.9
    ensures v == 0.0 <==> current == last
  {
    ScaleOrder(10.0, v, last);
    assert 10.0 < v <==> 10.0 * last < (current - last) * 100.0;
    assert 10.0 * last < (current - last) * 100.0 <==> last * 1.1 < current;
    ScaleOrder(v, -10.0, last);
    assert v < -10.0 <==> (current - last) * 100.0 < -10.0 * last;
    assert (current - last) * 100.0 < -10.0 * last <==> current < last * 0.9;
    ScaleOrder(v, 0.0, last);
    ScaleOrder(0.0, v, last);
  }

  /** Multiplying by a positive factor keeps strict order, both ways. */
  lemma ScaleOrder(x: real, y: real, c: real)
    requires c > 0.0
    ensures x < y <==> x * c < y * c
  {
    if x < y {
      assert (y - x) * c > 0.0;
    } else {
      assert (x - y) * c >= 0.0;
    }
  }

  datatype Insight = Increase(percent: real) | Decrease(percent: real) | ImportErrors(count: nat) | Duplicates(count: nat)

  /** The rendered count insights; percentages are rendered with one decimal
      place, which the model does not format. */
  function CountInsightText(i: Insight): string
    requires i.ImportErrors? || i.Duplicates?
  {
    match i
    case ImportErrors(n) => NatToString(n) + " faturas com erro de importação exigem atenção."
    case Duplicates(n) => NatToString(n) + " faturas duplicadas foram ignoradas."
  }

  /** The insight lines: at most one variation line, then errors, then
      duplicates, each only when it applies. */
  function InsightList(variation: real, errors: nat, skipped: nat): (l: seq<Insight>)
    ensures Increase(variation) in l <==> variation > 10.0
    ensures (exists p :: Increase(p) in l) <==> variation > 10.0
    ensures (exists p :: Decrease(p) in l) <==> variation < -10.0
    ensures variation < -10.0 ==> Decrease(-variation) in l
    ensures ImportErrors(errors) in l <==> errors > 0
    ensures Duplicates(skipped) in l <==> skipped > 0
    ensures |l| <= 3
    ensures forall k :: 0 <= k < |l| ==> (l[k].Increase? || l[k].Decrease?) ==> k == 0
  {
    var trend := if variation > 10.0 then [Increase(variation)]
                 else if variation < -10.0 then [Decrease(-variation)]
                 else [];
    assert forall p :: Decrease(p) in trend ==> variation < -10.0;
    assert forall p :: Increase(p) in trend ==> variation > 10.0;
    trend + (if errors > 0 then [ImportErrors(errors)] else [])
          + (if skipped > 0 then [Duplicates(skipped)] else [])
  }

  /** Counts import rows created in `[start, end)` with the given status. */
  function CountCreated(imports: seq<InvoiceImport>, start: Date, end: Date, status: ImportStatus): (n: nat)
    ensures n <= |imports|
  {
    if |imports| == 0 then 0
    else
      var last := imports[|imports| - 1];
      var inWindow := !Before(last.createdAt.date, start) && Before(last.createdAt.date, end);
      CountCreated(imports[..|imports| - 1], start, end, status)
        + (if inWindow && last.status == status then 1 else 0)
  }

  datatype InsightsData = InsightsData(
    currentTotal: int,
    lastTotal: int,
    variation: real,
    errorsCount: nat,
    skippedCount: nat,
    reportCount: nat,
    insights: seq<Insight>)

  /** `DashboardInsightsView.get`: billable totals by reference date for this
      month and the previous one, their variation, and this month's failed and
      skipped imports by creation date. */
  function Insights(db: Db, today: Date): (d: InsightsData)
    requires WellFormed(today)
    ensures d.currentTotal == Tally(db.reports, BillableIn(FirstOfMonth(today), NextMonthStart(today)), db.nextReport).total
    ensures d.lastTotal == Tally(db.reports, BillableIn(PreviousMonthStart(today), FirstOfMonth(today)), db.nextReport).total
    ensures d.variation == Variation(CentsValue(d.currentTotal), CentsValue(d.lastTotal))
    ensures d.insights == InsightList(d.variation, d.errorsCount, d.skippedCount)
    ensures d.errorsCount == CountCreated(db.imports, FirstOfMonth(today), NextMonthStart(today), ImportStatus.Failed)
    ensures d.skippedCount == CountCreated(db.imports, FirstOfMonth(today), NextMonthStart(today), Skipped)
  {
    var first := FirstOfMonth(today);
    var next := NextMonthStart(today);
    var previous := PreviousMonthStart(today);
    var current := Tally(db.reports, BillableIn(first, next), db.nextReport);
    var last := Tally(db.reports, BillableIn(previous, first), db.nextReport);
    var variation := Variation(CentsValue(current.total), CentsValue(last.total));
    var errors := CountCreated(db.imports, first, next, ImportStatus.Failed);
    var skipped := CountCreated(db.imports, first, next, Skipped);
    InsightsData(current.total, last.total, variation, errors, skipped, current.count,
                 InsightList(variation, errors, skipped))
  }

  /** The windows select exactly this month's and last month's reference
      dates. */
  lemma InsightWindows(today: Date, r: Report)
    requires WellFormed(today) && WellFormed(r.referenceDate)
    ensures InWindow(r.referenceDate, FirstOfMonth(today), NextMonthStart(today))
            <==> r.referenceDate.year == today.year && r.referenceDate.month == today.month
    ensures InWindow(r.referenceDate, PreviousMonthStart(today), FirstOfMonth(today))
            <==> r.referenceDate.year == PreviousMonthStart(today).year
                 && r.referenceDate.month == PreviousMonthStart(today).month
  {
    MonthWindow(today, r.referenceDate);
    PreviousMonthWindow(today, r.referenceDate);
  }

  /** Counting by creation date agrees with comparing full timestamps against
      the month's first midnight and the next month's. */
  lemma CreatedWindow(today: Date, m: Moment)
    requires IsValid(today) && IsValidMoment(m) && IsValid(NextMonthStart(today))
    ensures InWindow(m.date, FirstOfMonth(today), NextMonthStart(today))
            <==> Seconds(Midnight(FirstOfMonth(today))) <= Seconds(m) < Seconds(Midnight(NextMonthStart(today)))
  {
    SecondsOrder(m, Midnight(FirstOfMonth(today)));
    SecondsOrder(m, Midnight(NextMonthStart(today)));
  }

  /** The billable total, in cents, of the reports with id below `k` whose
      reference date falls in calendar month `month` of `year`. */
  function MonthTotal(reports: map<nat, Report>, year: int, month: int, k: nat): int
    decreases k
  {
    if k == 0 then 0
    else
      MonthTotal(reports, year, month, k - 1)
        + (if k - 1 in reports && Billable(reports[k - 1]) && reports[k - 1].referenceDate.year == year
              && reports[k - 1].referenceDate.month == month then reports[k - 1].totalValue else 0)
  }

  /** The two windows of the insights total the billable reports of this
      calendar month and of the previous one. */
  lemma {:induction false} BillableMonthTotals(reports: map<nat, Report>, today: Date, k: nat)
    requires WellFormed(today) && forall id :: id in reports ==> WellFormed(reports[id].referenceDate)
    ensures Tally(reports, BillableIn(FirstOfMonth(today), NextMonthStart(today)), k).total
            == MonthTotal(reports, today.year, today.month, k)
    ensures Tally(reports, BillableIn(PreviousMonthStart(today), FirstOfMonth(today)), k).total
            == MonthTotal(reports, PreviousMonthStart(today).year, PreviousMonthStart(today).month, k)
  {
    if k > 0 {
      BillableMonthTotals(reports, today, k - 1);
      if k - 1 in reports {
        InsightWindows(today, reports[k - 1]);
      }
    }
  }

  /** Scaling both totals from cents keeps their order against 110% and 90%. */
  lemma CentsThresholds(current: int, last: int)
    requires last > 0
    ensures CentsValue(current) > CentsValue(last) * 1.1 <==> current * 10 > last * 11
    ensures CentsValue(current) < CentsValue(last) * 0.9 <==> current * 10 < last * 9
  {
    assert CentsValue(current) * 1000.0 == (current * 10) as real;
    assert CentsValue(last) * 1.1 * 1000.0 == (last * 11) as real;
    assert CentsValue(last) * 0.9 * 1000.0 == (last * 9) as real;
    ScaleOrder(CentsValue(last) * 1.1, CentsValue(current), 1000.0);
    ScaleOrder(CentsValue(current), CentsValue(last) * 0.9, 1000.0);
  }

  /** The insights as the view computes them: the totals are this month's and
      last month's billable reports; with a positive last total an increase
      line appears exactly when this month is above 110% of it and a decrease
      line exactly when below 90%; from a non-positive last total there is no
      decrease line, and the 100% increase line appears exactly when this
      month's total is positive. */
  lemma InsightsTrend(db: Db, today: Date)
    requires Valid(db) && WellFormed(today)
    ensures var d := Insights(db, today); var p := PreviousMonthStart(today);
      d.currentTotal == MonthTotal(db.reports, today.year, today.month, db.nextReport)
      && d.lastTotal == MonthTotal(db.reports, p.year, p.month, db.nextReport)
    ensures var d := Insights(db, today);
      d.lastTotal > 0 ==>
        ((exists v :: Increase(v) in d.insights) <==> d.currentTotal * 10 > d.lastTotal * 11)
        && ((exists v :: Decrease(v) in d.insights) <==> d.currentTotal * 10 < d.lastTotal * 9)
    ensures var d := Insights(db, today);
      d.lastTotal <= 0 ==>
        (Increase(100.0) in d.insights <==> d.currentTotal > 0)
        && !(exists v :: Decrease(v) in d.insights)
  {
    var d := Insights(db, today);
    BillableMonthTotals(db.reports, today, db.nextReport);
    if d.lastTotal > 0 {
      VariationThresholds(CentsValue(d.currentTotal), CentsValue(d.lastTotal));
      CentsThresholds(d.currentTotal, d.lastTotal);
    }
  }
}
