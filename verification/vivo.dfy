/** `VivoParser.parse`: a primary pass over fixed label patterns, and a
    fallback pass that only fills what the primary pass left empty. The regex
    matches come in as strings, in the order `re.findall` / `re.search` would
    yield them. */
module VivoParser {
  import opened Wrappers
  import opened Dates
  import opened Parsing

  datatype VivoHits = VivoHits(
    totals: seq<string>,          // every match of the four primary total patterns
    dates: seq<string>,           // the first match of each primary date pattern that matched, in pattern order
    invoice: Option<string>,      // the first match of the primary invoice-number pattern
    fallbackTotals: seq<string>,  // every match of the five fallback total patterns
    fallbackDates: seq<string>,   // every match of the four fallback date patterns
    fallbackInvoice: Option<string>)

  /** `max` of the truthy amounts, or `None` when there is none. */
  function MaxTruthy(vs: seq<Option<real>>): (r: Option<real>)
    ensures r.None? <==> forall i :: 0 <= i < |vs| ==> !TruthyAmount(vs[i])
    ensures r.Some? ==> TruthyAmount(r) && r in vs
    ensures r.Some? ==> forall i :: 0 <= i < |vs| && TruthyAmount(vs[i]) ==> vs[i].value <= r.value
  {
    if |vs| == 0 then None
    else
      var init := vs[..|vs| - 1];
      var rest := MaxTruthy(init);
      var v := vs[|vs| - 1];
      assert forall i :: 0 <= i < |init| ==> vs[i] == init[i];
      if !TruthyAmount(v) then rest
      else if rest.None? || rest.value < v.value then v
      else rest
  }

  /** `max` of the truthy cleaned amounts, or `None` when there is none. */
  function MaxAmount(vals: seq<string>): (r: Option<real>)
    ensures r.Some? ==> r.value > 0.0
    ensures r.None? <==> forall i :: 0 <= i < |vals| ==> !TruthyAmount(CleanCurrency(Some(vals[i])))
    ensures r.Some? ==> exists i :: 0 <= i < |vals| && CleanCurrency(Some(vals[i])) == r
    ensures r.Some? ==> forall i :: 0 <= i < |vals| && TruthyAmount(CleanCurrency(Some(vals[i]))) ==>
                          CleanCurrency(Some(vals[i])).value <= r.value
  {
    var vs := seq(|vals|, i requires 0 <= i < |vals| => CleanCurrency(Some(vals[i])));
    assert forall i :: 0 <= i < |vals| ==> vs[i] == CleanCurrency(Some(vals[i]));
    var r := MaxTruthy(vs);
    if r.Some? then
      ghost var k :| 0 <= k < |vs| && vs[k] == r;
      r
    else r
  }

  /** The first present value, trying the candidates in order. */
  function FirstSome(ds: seq<Option<Date>>): (r: Option<Date>)
    ensures r.None? <==> forall i :: 0 <= i < |ds| ==> ds[i].None?
    ensures r.Some? ==> exists i :: 0 <= i < |ds| && ds[i] == r && forall j :: 0 <= j < i ==> ds[j].None?
  {
    if |ds| == 0 then None
    else if ds[0].Some? then ds[0]
    else
      var r := FirstSome(ds[1..]);
      assert forall i :: 1 <= i < |ds| ==> ds[i] == ds[1..][i - 1];
      if r.Some? then
        ghost var i :| 0 <= i < |ds[1..]| && ds[1..][i] == r && forall j :: 0 <= j < i ==> ds[1..][j].None?;
        assert ds[i + 1] == r;
        r
      else r
  }

  /** The first date that parses, trying the candidates in order. */
  function FirstDate(ms: seq<string>): (r: Option<Date>)
    ensures r.None? <==> forall i :: 0 <= i < |ms| ==> ParseDate(ms[i]).None?
    ensures r.Some? ==> exists i :: 0 <= i < |ms| && ParseDate(ms[i]) == r
                                    && forall j :: 0 <= j < i ==> ParseDate(ms[j]).None?
  {
    var ds := seq(|ms|, i requires 0 <= i < |ms| => ParseDate(ms[i]));
    assert forall i :: 0 <= i < |ms| ==> ds[i] == ParseDate(ms[i]);
    var r := FirstSome(ds);
    if r.Some? then
      ghost var k :| 0 <= k < |ds| && ds[k] == r && forall j :: 0 <= j < k ==> ds[j].None?;
      r
    else r
  }

  /** `max` of the present dates, or `None` when there is none. */
  function Latest(ds: seq<Option<Date>>): (r: Option<Date>)
    ensures r.None? <==> forall i :: 0 <= i < |ds| ==> ds[i].None?
    ensures r.Some? ==> r in ds
    ensures r.Some? ==> forall i :: 0 <= i < |ds| && ds[i].Some? ==> !Before(r.value, ds[i].value)
  {
    if |ds| == 0 then None
    else
      var init := ds[..|ds| - 1];
      var rest := Latest(init);
      var d := ds[|ds| - 1];
      assert forall i :: 0 <= i < |init| ==> ds[i] == init[i];
      if d.None? then rest
      else if rest.None? then d
      else Some(Later(rest.value, d.value))
  }

  /** `max` of the candidates that parse as dates. */
  function LatestDate(ms: seq<string>): (r: Option<Date>)
    ensures r.None? <==> forall i :: 0 <= i < |ms| ==> ParseDate(ms[i]).None?
    ensures r.Some? ==> exists i :: 0 <= i < |ms| && ParseDate(ms[i]) == r
    ensures r.Some? ==> forall i :: 0 <= i < |ms| && ParseDate(ms[i]).Some? ==>
                          !Before(r.value, ParseDate(ms[i]).value)
  {
    var ds := seq(|ms|, i requires 0 <= i < |ms| => ParseDate(ms[i]));
    assert forall i :: 0 <= i < |ms| ==> ds[i] == ParseDate(ms[i]);
    var r := Latest(ds);
    if r.Some? then
      ghost var k :| 0 <= k < |ds| && ds[k] == r;
      r
    else r
  }

  /** The fields the primary pass finds. */
  function PrimaryTotal(h: VivoHits): Option<real> { MaxAmount(h.totals) }
  function PrimaryDue(h: VivoHits): Option<Date> { FirstDate(h.dates) }

  /** The primary pass found all three fields. */
  predicate PrimaryComplete(h: VivoHits) {
    TruthyAmount(PrimaryTotal(h)) && PrimaryDue(h).Some? && Present(h.invoice)
  }

  /** `VivoParser.parse` on extracted text `text` with regex matches `h`. */
  function Parse(text: string, h: VivoHits): (r: Extracted)
    ensures r.carrier == "VIVO"
    ensures r.confidence in {0, 50, 80, 100}
    ensures r.confidence == 0 <==> text == ""
    ensures text == "" ==> r.totalValue.None? && r.dueDate.None? && r.invoiceNumber.None?
    ensures r.confidence == 100 <==> text != "" && PrimaryComplete(h)
    ensures r.confidence == 50 <==> text != "" && (!TruthyAmount(r.totalValue) || r.dueDate.None?)
    ensures r.totalValue.Some? ==> r.totalValue.value > 0.0
    ensures Sound(r)
  {
    if text == "" then Extracted(None, None, None, "VIVO", 0)
    else
      var total := PrimaryTotal(h);
      var due := PrimaryDue(h);
      var invoice := h.invoice;
      if !TruthyAmount(total) || due.None? || !Present(invoice) then
        var total2 := if !TruthyAmount(total) then MaxAmount(h.fallbackTotals) else total;
        var due2 := if due.None? then LatestDate(h.fallbackDates) else due;
        var invoice2 := if !Present(invoice) && h.fallbackInvoice.Some? then h.fallbackInvoice else invoice;
        var confidence := if !TruthyAmount(total2) || due2.None? then 50 else 80;
        Extracted(invoice2, due2, total2, "VIVO", confidence)
      else Extracted(invoice, due, total, "VIVO", 100)
  }

  /** The fallback never overwrites: every field the primary pass found is
      returned as found, whatever the fallback patterns match. */
  lemma FallbackOnlyFills(text: string, h: VivoHits)
    requires text != ""
    ensures TruthyAmount(PrimaryTotal(h)) ==> Parse(text, h).totalValue == PrimaryTotal(h)
    ensures PrimaryDue(h).Some? ==> Parse(text, h).dueDate == PrimaryDue(h)
    ensures Present(h.invoice) ==> Parse(text, h).invoiceNumber == h.invoice
  {
  }

  /** The fallback fills a missing total with the largest fallback amount and
      a missing due date with the latest fallback date. */
  lemma FallbackFills(text: string, h: VivoHits)
    requires text != ""
    ensures !TruthyAmount(PrimaryTotal(h)) ==> Parse(text, h).totalValue == MaxAmount(h.fallbackTotals)
    ensures PrimaryDue(h).None? ==> Parse(text, h).dueDate == LatestDate(h.fallbackDates)
  {
  }

  /** A missing invoice number alone costs 20 points, never 50. */
  lemma MissingInvoiceOnly(text: string, h: VivoHits)
    requires text != "" && TruthyAmount(PrimaryTotal(h)) && PrimaryDue(h).Some? && !Present(h.invoice)
    ensures Parse(text, h).confidence == 80
  {
  }

  /** When the primary date patterns match only unparseable text, the
      fallback still runs and may find the date. */
  lemma PrimaryDatesTriedInOrder(a: string, b: string)
    requires ParseDate(a).None? && ParseDate(b).Some?
    ensures FirstDate([a, b]) == ParseDate(b)
    ensures FirstDate([b, a]) == ParseDate(b)
  {
    var ab, ba := [a, b], [b, a];
    assert ab[0] == a && ab[1] == b && ba[0] == b && ba[1] == a;
    assert ParseDate(ab[0]).None? && ParseDate(ab[1]).Some? && ParseDate(ba[0]).Some?;
    assert FirstDate(ab).Some? && FirstDate(ba).Some?;
    var i :| 0 <= i < 2 && ParseDate(ab[i]) == FirstDate(ab);
    assert i != 0;
    var k :| 0 <= k < 2 && ParseDate(ba[k]) == FirstDate(ba);
    assert k != 1;
  }
}
