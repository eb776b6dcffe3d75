/** `ReportFilter`: the query-string filters of the report list. A parameter
    that is absent (or, for text, empty) does not restrict; the supplied ones
    conjoin. Amounts are compared as decimals against the stored cents. */
module ReportFilters {
  import opened Wrappers
  import opened Text
  import opened Dates
  import opened Money
  import opened Reports
  import opened Database

  datatype Query = Query(
    status: Option<ReportStatus>,
    category: Option<nat>,
    minValue: Option<real>,
    maxValue: Option<real>,
    startDate: Option<Date>,
    endDate: Option<Date>,
    categoryName: string)

  const NoFilters: Query := Query(None, None, None, None, None, None, "")

  /** `icontains`: substring match after case folding both sides. */
  predicate IContains(s: string, sub: string) {
    Contains(Upper(s), Upper(sub))
  }

  /** Whether the filter set keeps report `r`, whose category is named
      `categoryName`. */
  predicate Selects(q: Query, r: Report, categoryName: string) {
    (q.status.Some? ==> r.status == q.status.value)
    && (q.category.Some? ==> r.category == q.category.value)
    && (q.minValue.Some? ==> CentsValue(r.totalValue) >= q.minValue.value)
    && (q.maxValue.Some? ==> CentsValue(r.totalValue) <= q.maxValue.value)
    && (q.startDate.Some? ==> !Before(r.referenceDate, q.startDate.value))
    && (q.endDate.Some? ==> !Before(q.endDate.value, r.referenceDate))
    && (q.categoryName != "" ==> IContains(categoryName, q.categoryName))
  }

  /** The seven query parameters. */
  datatype Param = StatusParam | CategoryParam | MinValue | MaxValue | StartDate | EndDate | CategoryName

  predicate Supplied(q: Query, p: Param) {
    match p
    case StatusParam => q.status.Some?
    case CategoryParam => q.category.Some?
    case MinValue => q.minValue.Some?
    case MaxValue => q.maxValue.Some?
    case StartDate => q.startDate.Some?
    case EndDate => q.endDate.Some?
    case CategoryName => q.categoryName != ""
  }

  /** The query with only parameter `p` kept. */
  function Only(q: Query, p: Param): (o: Query)
    ensures forall p2 :: Supplied(o, p2) <==> p2 == p && Supplied(q, p)
  {
    match p
    case StatusParam => NoFilters.(status := q.status)
    case CategoryParam => NoFilters.(category := q.category)
    case MinValue => NoFilters.(minValue := q.minValue)
    case MaxValue => NoFilters.(maxValue := q.maxValue)
    case StartDate => NoFilters.(startDate := q.startDate)
    case EndDate => NoFilters.(endDate := q.endDate)
    case CategoryName => NoFilters.(categoryName := q.categoryName)
  }

  /** No parameters, no restriction; with parameters, a report is kept exactly
      when every supplied parameter on its own would keep it. */
  lemma FiltersConjoin(q: Query, r: Report, categoryName: string)
    ensures Selects(NoFilters, r, categoryName)
    ensures Selects(q, r, categoryName) <==> forall p :: Supplied(q, p) ==> Selects(Only(q, p), r, categoryName)
    ensures (forall p :: !Supplied(q, p)) <==> q == NoFilters
  {
    if forall p :: Supplied(q, p) ==> Selects(Only(q, p), r, categoryName) {
      assert Supplied(q, StatusParam) ==> Selects(Only(q, StatusParam), r, categoryName);
      assert Supplied(q, CategoryParam) ==> Selects(Only(q, CategoryParam), r, categoryName);
      assert Supplied(q, MinValue) ==> Selects(Only(q, MinValue), r, categoryName);
      assert Supplied(q, MaxValue) ==> Selects(Only(q, MaxValue), r, categoryName);
      assert Supplied(q, StartDate) ==> Selects(Only(q, StartDate), r, categoryName);
      assert Supplied(q, EndDate) ==> Selects(Only(q, EndDate), r, categoryName);
      assert Supplied(q, CategoryName) ==> Selects(Only(q, CategoryName), r, categoryName);
    }
    if forall p :: !Supplied(q, p) {
      assert !Supplied(q, StatusParam) && !Supplied(q, CategoryParam) && !Supplied(q, MinValue);
      assert !Supplied(q, MaxValue) && !Supplied(q, StartDate) && !Supplied(q, EndDate);
      assert !Supplied(q, CategoryName);
    }
  }

  /** Value bounds and date bounds are inclusive, and the dates bound the
      reference date, not the due date. */
  lemma BoundsInclusive(r: Report, categoryName: string, d: Option<Date>)
    ensures Selects(NoFilters.(minValue := Some(CentsValue(r.totalValue)),
                              maxValue := Some(CentsValue(r.totalValue))), r, categoryName)
    ensures Selects(NoFilters.(startDate := Some(r.referenceDate), endDate := Some(r.referenceDate)),
                    r.(dueDate := d), categoryName)
  {
  }

  /** A value above the maximum or a reference date before the start is
      excluded. */
  lemma BoundsExclude(q: Query, r: Report, categoryName: string)
    requires (q.maxValue.Some? && CentsValue(r.totalValue) > q.maxValue.value)
          || (q.startDate.Some? && Before(r.referenceDate, q.startDate.value))
    ensures !Selects(q, r, categoryName)
  {
  }

  /** The category-name filter ignores letter case on both sides, and any
      name contains the empty string. */
  lemma CategoryNameCaseInsensitive(q: Query, r: Report, categoryName: string)
    ensures Selects(q.(categoryName := Upper(q.categoryName)), r, categoryName)
        <==> Selects(q, r, categoryName)
    ensures Selects(q, r, Upper(categoryName)) <==> Selects(q, r, categoryName)
  {
    UpperIdempotent(q.categoryName);
    UpperIdempotent(categoryName);
    assert q.categoryName == "" <==> Upper(q.categoryName) == "";
  }

  /** The report with this id exists and the query keeps it. */
  predicate Chosen(db: Db, q: Query, id: nat)
    requires CategoriesResolve(db)
  {
    id in db.reports && Selects(q, db.reports[id], db.categories[db.reports[id].category].name)
  }

  /** The ids of the reports below `k` the query keeps, in id order. */
  function FilterFrom(db: Db, q: Query, k: nat): (ids: seq<nat>)
    requires CategoriesResolve(db)
    ensures forall x :: 0 <= x < |ids| ==> ids[x] < k
    ensures forall i, j :: 0 <= i < j < |ids| ==> ids[i] < ids[j]
    ensures forall id: nat :: multiset(ids)[id] == (if id < k && Chosen(db, q, id) then 1 else 0)
    decreases k
  {
    if k == 0 then []
    else
      var ids := FilterFrom(db, q, k - 1);
      var id: nat := k - 1;
      if Chosen(db, q, id) then
        AppendAbove(ids, id);
        ids + [id]
      else ids
  }

  /** Appending an id above every listed one keeps the list increasing and
      counts the new id once. */
  lemma AppendAbove(ids: seq<nat>, id: nat)
    requires forall x :: 0 <= x < |ids| ==> ids[x] < id
    requires forall i, j :: 0 <= i < j < |ids| ==> ids[i] < ids[j]
    ensures forall x :: 0 <= x < |ids + [id]| ==> (ids + [id])[x] <= id
    ensures forall i, j :: 0 <= i < j < |ids + [id]| ==> (ids + [id])[i] < (ids + [id])[j]
    ensures forall n: nat :: multiset(ids + [id])[n] == multiset(ids)[n] + (if n == id then 1 else 0)
  {
    assert multiset(ids + [id]) == multiset(ids) + multiset{id};
  }

  // ---- `Meta.ordering = ['-reference_date']` ----

  predicate IdsIn(reports: map<nat, Report>, ids: seq<nat>) {
    forall i :: 0 <= i < |ids| ==> ids[i] in reports
  }

  /** Newest reference date first. */
  predicate NewestFirst(reports: map<nat, Report>, ids: seq<nat>)
    requires IdsIn(reports, ids)
  {
    forall i, j :: 0 <= i < j < |ids| ==> !Before(reports[ids[i]].referenceDate, reports[ids[j]].referenceDate)
  }

  /** Places `k` ahead of the first id whose reference date is no later. */
  function InsertByDate(reports: map<nat, Report>, k: nat, ids: seq<nat>): (r: seq<nat>)
    requires k in reports && IdsIn(reports, ids)
    ensures IdsIn(reports, r)
    ensures multiset(r) == multiset(ids) + multiset{k}
    ensures |r| > 0 && (r[0] == k || (|ids| > 0 && r[0] == ids[0]))
  {
    if |ids| == 0 || !Before(reports[k].referenceDate, reports[ids[0]].referenceDate) then [k] + ids
    else
      assert ids == [ids[0]] + ids[1..];
      var rest := InsertByDate(reports, k, ids[1..]);
      assert multiset([ids[0]] + rest) == multiset{ids[0]} + multiset(rest);
      [ids[0]] + rest
  }

  /** Inserting into a newest-first list keeps it newest first. */
  lemma {:induction false} InsertByDateOrder(reports: map<nat, Report>, k: nat, ids: seq<nat>)
    requires k in reports && IdsIn(reports, ids) && NewestFirst(reports, ids)
    ensures NewestFirst(reports, InsertByDate(reports, k, ids))
    decreases |ids|
  {
    if |ids| == 0 || !Before(reports[k].referenceDate, reports[ids[0]].referenceDate) {
      ConsByDate(reports, k, ids);
    } else {
      TailByDate(reports, ids);
      var rest := InsertByDate(reports, k, ids[1..]);
      InsertByDateOrder(reports, k, ids[1..]);
      ConsByDate(reports, ids[0], rest);
    }
  }

  /** The tail of a newest-first list is newest first and no later than its head. */
  lemma TailByDate(reports: map<nat, Report>, ids: seq<nat>)
    requires IdsIn(reports, ids) && NewestFirst(reports, ids) && |ids| > 0
    ensures IdsIn(reports, ids[1..]) && NewestFirst(reports, ids[1..])
    ensures |ids| > 1 ==> !Before(reports[ids[0]].referenceDate, reports[ids[1]].referenceDate)
  {
    var t := ids[1..];
    assert IdsIn(reports, t);
    forall i, j | 0 <= i < j < |t|
      ensures !Before(reports[t[i]].referenceDate, reports[t[j]].referenceDate)
    {
      assert t[i] == ids[i + 1] && t[j] == ids[j + 1];
    }
  }

  /** A report no older than the head of a newest-first list can go in front. */
  lemma ConsByDate(reports: map<nat, Report>, x: nat, rest: seq<nat>)
    requires x in reports && IdsIn(reports, rest) && NewestFirst(reports, rest)
    requires |rest| > 0 ==> !Before(reports[x].referenceDate, reports[rest[0]].referenceDate)
    ensures IdsIn(reports, [x] + rest) && NewestFirst(reports, [x] + rest)
  {
    var r := [x] + rest;
    assert IdsIn(reports, r);
    forall i, j | 0 <= i < j < |r|
      ensures !Before(reports[r[i]].referenceDate, reports[r[j]].referenceDate)
    {
      assert r[j] == rest[j - 1];
      if i == 0 {
        if j > 1 {
          assert !Before(reports[rest[0]].referenceDate, reports[rest[j - 1]].referenceDate);
          BeforeTransitive(reports[x].referenceDate, reports[rest[0]].referenceDate,
                           reports[rest[j - 1]].referenceDate);
        }
      } else {
        assert r[i] == rest[i - 1];
      }
    }
  }

  /** Dates no earlier than one another chain. */
  lemma BeforeTransitive(a: Date, b: Date, c: Date)
    requires !Before(a, b) && !Before(b, c)
    ensures !Before(a, c)
  {
  }

  /** `order_by('-reference_date')`; reports with the same reference date
      keep ascending id order. */
  function SortByDate(reports: map<nat, Report>, ids: seq<nat>): (r: seq<nat>)
    requires IdsIn(reports, ids)
    ensures IdsIn(reports, r) && NewestFirst(reports, r)
    ensures multiset(r) == multiset(ids)
  {
    if |ids| == 0 then []
    else
      assert ids == [ids[0]] + ids[1..];
      var rest := SortByDate(reports, ids[1..]);
      InsertByDateOrder(reports, ids[0], rest);
      InsertByDate(reports, ids[0], rest)
  }

  /** `ReportFilter(params, queryset).qs` over `Report.objects.all()`: each
      report the query keeps, once, newest reference date first. */
  function FilterReports(db: Db, q: Query): (ids: seq<nat>)
    requires Valid(db)
    ensures IdsIn(db.reports, ids) && NewestFirst(db.reports, ids)
    ensures forall id: nat :: multiset(ids)[id] == (if Chosen(db, q, id) then 1 else 0)
    ensures forall id: nat :: id in ids <==> Chosen(db, q, id)
  {
    var found := FilterFrom(db, q, db.nextReport);
    assert IdsIn(db.reports, found) by {
      forall i | 0 <= i < |found|
        ensures found[i] in db.reports
      {
        assert multiset(found)[found[i]] > 0;
      }
    }
    var ids := SortByDate(db.reports, found);
    assert forall id :: id in db.reports ==> id < db.nextReport;
    ids
  }

  // ---- `PageNumberPagination` with `PAGE_SIZE = 20` ----

  const PageSize: nat := 20

  /** The number of pages: the first page exists even when the list is empty. */
  function PageCount(n: nat): (c: nat)
    ensures c >= 1 && (c - 1) * PageSize < n + (if n == 0 then 1 else 0) && n <= c * PageSize
  {
    if n <= PageSize then 1 else 1 + PageCount(n - PageSize)
  }

  /** `?page=n`: the `n`-th run of twenty, or `None` (404 "Invalid page.")
      when `n` is below 1 or past the last page. */
  function Page(ids: seq<nat>, n: int): (r: Option<seq<nat>>)
    ensures r.Some? <==> 1 <= n <= PageCount(|ids|)
    ensures r.Some? ==> |r.value| <= PageSize && (n - 1) * PageSize + |r.value| <= |ids|
                        && (n < PageCount(|ids|) ==> |r.value| == PageSize)
                        && forall k :: 0 <= k < |r.value| ==> r.value[k] == ids[(n - 1) * PageSize + k]
  {
    if 1 <= n <= PageCount(|ids|) then
      var start := (n - 1) * PageSize;
      Some(ids[start..if n * PageSize < |ids| then n * PageSize else |ids|])
    else None
  }

  /** Every listed report is on exactly the page its position names: the
      pages cover the list in order, none skipped. */
  lemma PageHolds(ids: seq<nat>, i: nat)
    requires i < |ids|
    ensures var p := Page(ids, i / PageSize + 1);
      p.Some? && i % PageSize < |p.value| && p.value[i % PageSize] == ids[i]
  {
    var n := i / PageSize + 1;
    assert (n - 1) * PageSize + i % PageSize == i;
    assert n <= PageCount(|ids|);
  }

  /** Adding a parameter can only narrow the result. */
  lemma {:induction false} RefineNarrows(db: Db, q: Query, q2: Query, id: nat)
    requires Valid(db)
    requires forall r, n :: Selects(q2, r, n) ==> Selects(q, r, n)
    ensures id in FilterReports(db, q2) ==> id in FilterReports(db, q)
  {
  }
}
