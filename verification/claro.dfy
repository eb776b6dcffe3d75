/** `ClaroParser.parse`: one total pattern and one due-date pattern, each
    taking its first match; no invoice number. */
module ClaroParser {
  import opened Wrappers
  import opened Text
  import opened Dates
  import opened Parsing

  /** The first match of the "TOTAL A PAGAR" pattern and of the "VENCIMENTO"
      pattern, when they match. */
  datatype ClaroHits = ClaroHits(total: Option<string>, dueDate: Option<string>)

  function Parse(text: string, h: ClaroHits): (r: Extracted)
    ensures r.carrier == "CLARO" && r.invoiceNumber.None?
    ensures r.confidence in {0, 50, 100}
    ensures r.confidence == 0 <==> text == ""
    ensures text == "" ==> r.totalValue.None? && r.dueDate.None?
    ensures text != "" ==> r.totalValue == (if h.total.Some? then CleanCurrency(h.total) else None)
    ensures text != "" ==> r.dueDate == (if h.dueDate.Some? then ParseDate(h.dueDate.value) else None)
    ensures r.confidence == 100 <==> text != "" && TruthyAmount(r.totalValue) && r.dueDate.Some?
    ensures Sound(r)
  {
    if text == "" then Extracted(None, None, None, "CLARO", 0)
    else
      var total := if h.total.Some? then CleanCurrency(h.total) else None;
      var due := if h.dueDate.Some? then ParseDate(h.dueDate.value) else None;
      var confidence := if !TruthyAmount(total) || due.None? then 50 else 100;
      Extracted(None, due, total, "CLARO", confidence)
  }

  /** A zero total is kept as zero, but costs the confidence. */
  lemma ZeroTotalKept(text: string, h: ClaroHits)
    requires text != "" && h.total.Some? && CleanCurrency(h.total) == Some(0.0)
    ensures Parse(text, h).totalValue == Some(0.0) && Parse(text, h).confidence == 50
  {
  }

  /** The total pattern captures `digits,dd`, which always cleans to an
      amount: a matched total is never lost. */
  lemma MatchedTotalCleans(whole: string, cents: string)
    requires |whole| >= 1 && AllDigits(whole) && |cents| == 2 && AllDigits(cents)
    ensures CleanCurrency(Some(whole + "," + cents)) == Some(DecimalValue(whole, cents))
  {
    CurrencyCharsFormatted(whole, cents);
    ParseDecimalSplit(whole, cents);
  }
}
