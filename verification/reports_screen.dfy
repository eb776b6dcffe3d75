/** The report list screen: `ReportsList`, its `ReportsFilters` bar and the
    `getReports` query string, with how the report filter reads it back. */
module ReportsScreen {
  import opened Wrappers
  import opened Text
  import opened Dates
  import opened Reports
  import opened ClientUi
  import ReportFilters
  import Audit
  import InboxScreen
  import Invoices
  import Database

  // ---- chips ----

  /** `statusColors`: a colour for each of the five statuses. */
  function StatusColor(s: ReportStatus): (c: Color)
    ensures c == Success <==> s == Approved
    ensures c == Info <==> s == Review
    ensures c == Warning <==> s == Pending
    ensures c == Error <==> s == Canceled || s == Failed
  {
    match s
    case Pending => Warning
    case Approved => Success
    case Canceled => Error
    case Failed => Error
    case Review => Info
  }

  /** The score column: N/A without a score, else a chip coloured success
      only at exactly 100, info from 80, warning from 50, error below. */
  datatype ScoreCell = NotAvailable | ScoreChip(score: int, color: Color)

  function ScoreCellOf(score: Option<int>): (c: ScoreCell)
    ensures c.NotAvailable? <==> score.None?
    ensures c.ScoreChip? ==> c.score == score.value
    ensures c.ScoreChip? ==> (c.color == Success <==> score.value == 100)
    ensures c.ScoreChip? ==> (c.color == Info <==> 80 <= score.value && score.value != 100)
    ensures c.ScoreChip? ==> (c.color == Warning <==> 50 <= score.value < 80)
    ensures c.ScoreChip? ==> (c.color == Error <==> score.value < 50)
  {
    if score.None? then NotAvailable
    else
      var v := score.value;
      ScoreChip(v, if v == 100 then Success else if v >= 80 then Info else if v >= 50 then Warning else Error)
  }

  /** The two screens colour a score alike below 80; from 80 the inbox
      shows success where this list shows info, except at 100. */
  lemma ScoreBandsAcrossScreens(v: int)
    ensures v < 80 ==> ScoreCellOf(Some(v)).color == InboxScreen.ScoreColor(v)
    ensures v >= 80 ==> (InboxScreen.ScoreColor(v) == Success
      && (ScoreCellOf(Some(v)).color == Success <==> v == 100))
  {
  }

  /** The original-PDF button: shown when the report names its source import
      with a truthy id. */
  predicate DownloadOffered(invoiceSource: Option<nat>) {
    invoiceSource.Some? && invoiceSource.value != 0
  }

  /** The `invoice_source_id` the server sends for a report: the database key
      of its source import, one more than the import's position here. */
  function SentSourceId(source: Option<nat>): (id: Option<nat>)
    ensures id.Some? <==> source.Some?
    ensures id.Some? ==> id.value >= 1
  {
    if source.Some? then Some(source.value + 1) else None
  }

  /** The button is offered for exactly the reports some import links. */
  lemma DownloadForLinked(imports: seq<Invoices.InvoiceImport>, id: nat)
    ensures DownloadOffered(SentSourceId(Database.SourceOf(imports, id)))
            <==> exists k :: 0 <= k < |imports| && imports[k].report == Some(id)
  {
  }

  /** `handleDelete`: the list is fetched again only after a delete that
      succeeded. */
  function AfterDelete(filters: Filters, deleted: bool): (refetch: Option<Filters>)
    ensures refetch.Some? <==> deleted
    ensures refetch.Some? ==> refetch.value == filters
  {
    if deleted then Some(filters) else None
  }

  // ---- filters ----

  /** `ReportFilters` on the client: the page, the two dates as typed ("" for
      unset), the status ('' is None) and the category id ('' is None). */
  datatype Filters = Filters(page: nat, startDate: string, endDate: string,
                             status: Option<ReportStatus>, category: Option<nat>)

  /** The filters the screen starts with. */
  const Initial: Filters := Filters(1, "", "", None, None)

  /** `Partial<ReportFilters>`: the fields a change supplies. */
  datatype Patch = Patch(page: Option<nat>, startDate: Option<string>, endDate: Option<string>,
                         status: Option<Option<ReportStatus>>, category: Option<Option<nat>>)

  /** `{ ...prev, ...patch }`. */
  function Merge(f: Filters, p: Patch): (r: Filters)
    ensures r.page == (if p.page.Some? then p.page.value else f.page)
    ensures r.startDate == (if p.startDate.Some? then p.startDate.value else f.startDate)
    ensures r.endDate == (if p.endDate.Some? then p.endDate.value else f.endDate)
    ensures r.status == (if p.status.Some? then p.status.value else f.status)
    ensures r.category == (if p.category.Some? then p.category.value else f.category)
  {
    Filters(p.page.GetOr(f.page), p.startDate.GetOr(f.startDate), p.endDate.GetOr(f.endDate),
            p.status.GetOr(f.status), p.category.GetOr(f.category))
  }

  /** An empty patch changes nothing, and applying a patch twice is
      applying it once. */
  lemma MergeLaws(f: Filters, p: Patch)
    ensures Merge(f, Patch(None, None, None, None, None)) == f
    ensures Merge(Merge(f, p), p) == Merge(f, p)
  {
  }

  /** One control of the filter bar changed to a value. */
  datatype Change =
    | StartChanged(date: string)
    | EndChanged(date: string)
    | StatusChanged(choice: Option<ReportStatus>)
    | CategoryChanged(id: Option<nat>)

  /** `handleChange`: the changed field, with the page back to 1. */
  function ChangePatch(c: Change): (p: Patch)
    ensures p.page == Some(1)
    ensures p.startDate.Some? <==> c.StartChanged?
    ensures p.endDate.Some? <==> c.EndChanged?
    ensures p.status.Some? <==> c.StatusChanged?
    ensures p.category.Some? <==> c.CategoryChanged?
  {
    match c
    case StartChanged(d) => Patch(Some(1), Some(d), None, None, None)
    case EndChanged(d) => Patch(Some(1), None, Some(d), None, None)
    case StatusChanged(s) => Patch(Some(1), None, None, Some(s), None)
    case CategoryChanged(k) => Patch(Some(1), None, None, None, Some(k))
  }

  /** A filter change lands on page 1, sets its own field, and keeps the
      others. */
  lemma ChangeResetsPage(f: Filters, c: Change)
    ensures var r := Merge(f, ChangePatch(c));
      r.page == 1
      && r.startDate == (if c.StartChanged? then c.date else f.startDate)
      && r.endDate == (if c.EndChanged? then c.date else f.endDate)
      && r.status == (if c.StatusChanged? then c.choice else f.status)
      && r.category == (if c.CategoryChanged? then c.id else f.category)
  {
  }

  /** The status select's options: all, PENDING, APPROVED, CANCELED. */
  const StatusOptions: seq<Option<ReportStatus>> := [None, Some(Pending), Some(Approved), Some(Canceled)]

  /** REVIEW and FAILED cannot be chosen in the filter bar. */
  lemma StatusOptionsOmit()
    ensures Some(Review) !in StatusOptions && Some(Failed) !in StatusOptions
    ensures forall s: ReportStatus :: Some(s) in StatusOptions <==> s in {Pending, Approved, Canceled}
  {
  }

  /** The category select's options: "" then the ids of the loaded page; a
      failed load leaves only "". */
  function CategoryOptions(loaded: Option<seq<(nat, Category)>>): (opts: seq<Option<nat>>)
    ensures |opts| >= 1 && opts[0] == None
    ensures loaded.None? ==> opts == [None]
    ensures loaded.Some? ==> (|opts| == |loaded.value| + 1
      && forall i :: 0 <= i < |loaded.value| ==> opts[i + 1] == Some(loaded.value[i].0))
  {
    if loaded.None? then [None]
    else [None] + seq(|loaded.value|, i requires 0 <= i < |loaded.value| => Some(loaded.value[i].0))
  }

  // ---- pagination ----

  /** The zero-based page the table shows. */
  function ShownPage(f: Filters): int {
    f.page - 1
  }

  /** `handlePageChange`. */
  function PageChange(f: Filters, newPage: nat): (r: Filters)
    ensures r.page >= 1
    ensures r.(page := f.page) == f
  {
    f.(page := newPage + 1)
  }

  /** The page shown after a change is the one chosen, and choosing the page
      shown changes nothing. */
  lemma PageRoundTrip(f: Filters, n: nat)
    ensures ShownPage(PageChange(f, n)) == n
    ensures f.page >= 1 ==> PageChange(f, ShownPage(f)) == f
  {
  }

  // ---- the query string ----

  /** The query string's pairs, in order. */
  type Params = Audit.Dict<string>

  /** `URLSearchParams.append` for the entries whose value is present, in
      the entries' order. */
  function Appended(es: seq<(string, Option<string>)>): (ps: Params)
    ensures |ps| <= |es|
    ensures forall j :: 0 <= j < |ps| ==> ps[j].0 in Keys(es)
  {
    if |es| == 0 then []
    else
      var rest := Appended(es[1..]);
      assert forall j :: 0 <= j < |rest| ==> rest[j].0 in Keys(es);
      if es[0].1.Some? then [(es[0].0, es[0].1.value)] + rest else rest
  }

  function Keys(es: seq<(string, Option<string>)>): (ks: seq<string>)
    ensures |ks| == |es| && forall i :: 0 <= i < |es| ==> ks[i] == es[i].0
  {
    seq(|es|, i requires 0 <= i < |es| => es[i].0)
  }

  predicate DistinctKeys(es: seq<(string, Option<string>)>) {
    forall i, j :: 0 <= i < j < |es| ==> es[i].0 != es[j].0
  }

  /** Each entry's key reads back its own value, or nothing when the value
      was not appended. */
  lemma {:induction false} LookupAppended(es: seq<(string, Option<string>)>, i: nat)
    requires DistinctKeys(es) && i < |es|
    ensures Audit.Lookup(Appended(es), es[i].0) == es[i].1
  {
    var rest := Appended(es[1..]);
    if i == 0 {
      assert forall j :: 0 <= j < |rest| ==> rest[j].0 in Keys(es[1..]);
      if es[0].1.Some? {
        assert ([(es[0].0, es[0].1.value)] + rest)[0].0 == es[0].0;
      }
    } else {
      LookupAppended(es[1..], i - 1);
      assert es[1..][i - 1] == es[i];
      if es[0].1.Some? {
        assert ([(es[0].0, es[0].1.value)] + rest)[1..] == rest;
      }
    }
  }

  /** The appended keys keep the entries' order. */
  lemma {:induction false} AppendedInOrder(es: seq<(string, Option<string>)>)
    requires DistinctKeys(es)
    ensures InOrder(Appended(es), Keys(es))
  {
    if |es| > 0 {
      var rest := Appended(es[1..]);
      AppendedInOrder(es[1..]);
      assert Keys(es)[1..] == Keys(es[1..]);
      if es[0].1.Some? {
        assert ([(es[0].0, es[0].1.value)] + rest)[1..] == rest;
      } else if |rest| > 0 {
        assert rest[0].0 in Keys(es[1..]);
      }
    }
  }

  /** The five candidate parameters, in `getReports`' order; each has a value
      only when the filter's field is truthy. */
  function Entries(f: Filters): (es: seq<(string, Option<string>)>)
    ensures DistinctKeys(es) && Keys(es) == KeyOrder
  {
    [("page", if f.page != 0 then Some(NatToString(f.page)) else None),
     ("start_date", if f.startDate != "" then Some(f.startDate) else None),
     ("end_date", if f.endDate != "" then Some(f.endDate) else None),
     ("status", if f.status.Some? then Some(StatusName(f.status.value)) else None),
     ("category", if f.category.Some? && f.category.value != 0 then Some(NatToString(f.category.value)) else None)]
  }

  /** `getReports`' query string. */
  function QueryParams(f: Filters): (ps: Params)
    ensures |ps| <= 5
    ensures InOrder(ps, KeyOrder)
  {
    AppendedInOrder(Entries(f));
    Appended(Entries(f))
  }

  /** The order the parameters are written in. */
  const KeyOrder: seq<string> := ["page", "start_date", "end_date", "status", "category"]

  /** Whether the keys of `ps` appear in `order`'s order, each at most once. */
  predicate InOrder(ps: Params, order: seq<string>)
    decreases |order|
  {
    if |ps| == 0 then true
    else if |order| == 0 then false
    else if ps[0].0 == order[0] then InOrder(ps[1..], order[1..])
    else InOrder(ps, order[1..])
  }

  /** Which parameters appear and with what text: page and category only
      when non-zero, the dates and the status only when set; and they appear
      in the fixed order. */
  lemma QueryContents(f: Filters)
    ensures var ps := QueryParams(f);
      Audit.Lookup(ps, "page") == (if f.page != 0 then Some(NatToString(f.page)) else None)
      && Audit.Lookup(ps, "start_date") == (if f.startDate != "" then Some(f.startDate) else None)
      && Audit.Lookup(ps, "end_date") == (if f.endDate != "" then Some(f.endDate) else None)
      && Audit.Lookup(ps, "status") == (if f.status.Some? then Some(StatusName(f.status.value)) else None)
      && Audit.Lookup(ps, "category") ==
           (if f.category.Some? && f.category.value != 0 then Some(NatToString(f.category.value)) else None)
      && InOrder(ps, KeyOrder)
  {
    var es := Entries(f);
    LookupAppended(es, 0);
    LookupAppended(es, 1);
    LookupAppended(es, 2);
    LookupAppended(es, 3);
    LookupAppended(es, 4);
    AppendedInOrder(es);
  }

  /** `QueryDict.get`: the value sent last under `key`, if any. */
  function QueryGet(ps: Params, key: string): (v: Option<string>)
    ensures v.None? <==> forall i :: 0 <= i < |ps| ==> ps[i].0 != key
    ensures v.Some? ==> exists i :: 0 <= i < |ps| && ps[i] == (key, v.value)
                                    && forall j :: i < j < |ps| ==> ps[j].0 != key
  {
    if |ps| == 0 then None
    else
      var later := QueryGet(ps[1..], key);
      assert forall j :: 1 <= j < |ps| ==> ps[j] == ps[1..][j - 1];
      if later.Some? then
        ghost var i :| 0 <= i < |ps[1..]| && ps[1..][i] == (key, later.value)
                       && forall j :: i < j < |ps[1..]| ==> ps[1..][j].0 != key;
        assert ps[i + 1] == (key, later.value);
        later
      else if ps[0].0 == key then Some(ps[0].1)
      else None
  }

  /** With each key sent once, the last value is the only one. */
  lemma {:induction false} QueryGetAppended(es: seq<(string, Option<string>)>, i: nat)
    requires DistinctKeys(es) && i < |es|
    ensures QueryGet(Appended(es), es[i].0) == es[i].1
  {
    var rest := Appended(es[1..]);
    if i == 0 {
      assert forall j :: 0 <= j < |rest| ==> rest[j].0 in Keys(es[1..]);
      if es[0].1.Some? {
        assert ([(es[0].0, es[0].1.value)] + rest)[1..] == rest;
      }
    } else {
      QueryGetAppended(es[1..], i - 1);
      assert es[1..][i - 1] == es[i];
      if es[0].1.Some? {
        var ps := [(es[0].0, es[0].1.value)] + rest;
        assert ps[1..] == rest;
        if es[i].1.None? {
          assert forall j :: 0 <= j < |rest| ==> rest[j].0 != es[i].0;
          assert ps[0].0 != es[i].0;
        }
      }
    }
  }

  /** A parameter the filter set applies: its last value, when sent and not
      the empty string (django-filter skips a filter whose value is empty). */
  function Given(ps: Params, key: string): (v: Option<string>)
    ensures v.Some? <==> QueryGet(ps, key).Some? && QueryGet(ps, key).value != ""
    ensures v.Some? ==> v == QueryGet(ps, key)
  {
    var v := QueryGet(ps, key);
    if v.Some? && v.value != "" then v else None
  }

  /** A repeated parameter is read from its last occurrence: a valid status
      followed by an invalid one makes the request invalid. */
  lemma LastStatusDecides()
    ensures Given([("status", "PENDING"), ("status", "BOGUS")], "status") == Some("BOGUS")
    ensures ServerQuery([("status", "PENDING"), ("status", "BOGUS")]).None?
  {
    var ps: Params := [("status", "PENDING"), ("status", "BOGUS")];
    assert ps[1..] == [("status", "BOGUS")];
    assert ps[1..][1..] == [];
  }

  /** How the report filter reads the parameters: an empty one is skipped; a
      given status must be one of the choices, a category a number, a date an
      ISO date; anything else makes the request invalid. */
  function ServerQuery(ps: Params): (q: Option<ReportFilters.Query>)
    ensures q.None? <==>
      (Given(ps, "status").Some? && ParseStatus(Given(ps, "status").value).None?)
      || (Given(ps, "category").Some? && !AllDigits(Given(ps, "category").value))
      || (Given(ps, "start_date").Some? && ParseIso(Given(ps, "start_date").value).None?)
      || (Given(ps, "end_date").Some? && ParseIso(Given(ps, "end_date").value).None?)
    ensures q.Some? ==> q.value.minValue.None? && q.value.maxValue.None? && q.value.categoryName == ""
    ensures q.Some? ==> (q.value.status.Some? <==> Given(ps, "status").Some?)
    ensures q.Some? ==> (q.value.startDate.Some? <==> Given(ps, "start_date").Some?)
    ensures q.Some? ==> (q.value.endDate.Some? <==> Given(ps, "end_date").Some?)
    ensures q.Some? ==> (q.value.category.Some? <==> Given(ps, "category").Some?)
  {
    var status := Given(ps, "status");
    var category := Given(ps, "category");
    var start := Given(ps, "start_date");
    var end := Given(ps, "end_date");
    if status.Some? && ParseStatus(status.value).None? then None
    else if category.Some? && !AllDigits(category.value) then None
    else if start.Some? && ParseIso(start.value).None? then None
    else if end.Some? && ParseIso(end.value).None? then None
    else
      Some(ReportFilters.Query(
        if status.Some? then ParseStatus(status.value) else None,
        if category.Some? then Some(DigitsToNat(category.value)) else None,
        None, None,
        if start.Some? then ParseIso(start.value) else None,
        if end.Some? then ParseIso(end.value) else None,
        ""))
  }

  /** The bar never sends an empty value, so every parameter it sends is
      applied. */
  lemma GivenFromBar(f: Filters)
    ensures var ps := QueryParams(f);
      Given(ps, "start_date") == (if f.startDate != "" then Some(f.startDate) else None)
      && Given(ps, "end_date") == (if f.endDate != "" then Some(f.endDate) else None)
      && Given(ps, "status") == (if f.status.Some? then Some(StatusName(f.status.value)) else None)
      && Given(ps, "category") ==
           (if f.category.Some? && f.category.value != 0 then Some(NatToString(f.category.value)) else None)
  {
    var es := Entries(f);
    QueryGetAppended(es, 1);
    QueryGetAppended(es, 2);
    QueryGetAppended(es, 3);
    QueryGetAppended(es, 4);
    if f.status.Some? {
      StatusNameRoundTrip(f.status.value);
    }
  }

  /** Parameters sent empty restrict nothing: they read as if absent. */
  lemma EmptyValuesSkipped(ps: Params)
    requires forall key :: key in {"status", "category", "start_date", "end_date"} ==>
               QueryGet(ps, key).None? || QueryGet(ps, key) == Some("")
    ensures ServerQuery(ps) == Some(ReportFilters.NoFilters)
  {
    assert Given(ps, "status").None? && Given(ps, "category").None?;
    assert Given(ps, "start_date").None? && Given(ps, "end_date").None?;
  }

  /** The server reads back what the bar holds: the status, a truthy
      category, and each date the date inputs gave. */
  lemma FiltersReachServer(f: Filters)
    requires f.startDate == "" || ParseIso(f.startDate).Some?
    requires f.endDate == "" || ParseIso(f.endDate).Some?
    ensures ServerQuery(QueryParams(f)) == Some(ReportFilters.Query(
      f.status,
      if f.category.Some? && f.category.value != 0 then f.category else None,
      None, None,
      if f.startDate != "" then ParseIso(f.startDate) else None,
      if f.endDate != "" then ParseIso(f.endDate) else None,
      ""))
  {
    GivenFromBar(f);
    if f.status.Some? {
      StatusNameRoundTrip(f.status.value);
    }
    if f.category.Some? && f.category.value != 0 {
      NatToStringRoundTrip(f.category.value);
    }
  }
}
