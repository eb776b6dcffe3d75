/** The helpers every invoice parser shares: `clean_currency`, `parse_date`
    and the OCR threshold of `extract_text`, plus the shape of a parser's
    result. Regex matching and the PDF and OCR engines are not modelled: their
    outputs come in as strings. */
module Parsing {
  import opened Wrappers
  import opened Text
  import opened Dates
  import opened Money

  /** What a parser returns: the extracted fields, the carrier label and a
      confidence score. Amounts are exact decimals. */
  datatype Extracted = Extracted(
    invoiceNumber: Option<string>,
    dueDate: Option<Date>,
    totalValue: Option<real>,
    carrier: string,
    confidence: int)

  /** Python truthiness of an optional string. */
  predicate Present(x: Option<string>) {
    x.Some? && x.value != ""
  }

  /** Python truthiness of an optional decimal: `None` and zero are falsy. */
  predicate TruthyAmount(x: Option<real>) {
    x.Some? && x.value != 0.0
  }

  /** What every parser guarantees of its result: a due date is a real
      calendar date and an amount is never negative. */
  predicate Sound(e: Extracted) {
    (e.dueDate.Some? ==> IsValid(e.dueDate.value))
    && (e.totalValue.Some? ==> e.totalValue.value >= 0.0)
  }

  // ---- counting characters ----

  function Count(s: string, c: char): (n: nat)
    ensures n <= |s|
  {
    if |s| == 0 then 0 else Count(s[..|s| - 1], c) + (if s[|s| - 1] == c then 1 else 0)
  }

  function DigitCount(s: string): (n: nat)
    ensures n <= |s|
  {
    if |s| == 0 then 0 else DigitCount(s[..|s| - 1]) + (if IsDigit(s[|s| - 1]) then 1 else 0)
  }

  lemma {:induction false} CountAppend(a: string, b: string, c: char)
    ensures Count(a + b, c) == Count(a, c) + Count(b, c)
    ensures DigitCount(a + b) == DigitCount(a) + DigitCount(b)
    decreases |b|
  {
    if |b| == 0 {
      assert a + b == a;
    } else {
      assert (a + b)[..|a + b| - 1] == a + b[..|b| - 1];
      CountAppend(a, b[..|b| - 1], c);
    }
  }

  predicate DecimalChars(t: string) {
    forall i :: 0 <= i < |t| ==> IsDigit(t[i]) || t[i] == '.'
  }

  /** In a string of digits and dots, every character is counted once, and the
      string is all digits exactly when it holds no dot. */
  lemma {:induction false} DecimalCharsCounts(t: string)
    requires DecimalChars(t)
    ensures |t| == DigitCount(t) + Count(t, '.')
    ensures AllDigits(t) <==> Count(t, '.') == 0
  {
    if |t| > 0 {
      var init := t[..|t| - 1];
      DecimalCharsCounts(init);
      assert forall i :: 0 <= i < |init| ==> t[i] == init[i];
      if Count(t, '.') == 0 {
        assert AllDigits(init);
      }
    }
  }

  // ---- clean_currency ----

  /** `re.sub(r'[^\d,]', '', s).replace(',', '.')`: keeps digits and commas,
      and turns each comma into a dot. */
  function CurrencyChars(s: string): (t: string)
    ensures DecimalChars(t)
    ensures Count(t, '.') == Count(s, ',')
    ensures DigitCount(t) == DigitCount(s)
  {
    if |s| == 0 then ""
    else
      var init := CurrencyChars(s[..|s| - 1]);
      var c := s[|s| - 1];
      var t := if IsDigit(c) then init + [c] else if c == ',' then init + ['.'] else init;
      assert t == init || t[..|t| - 1] == init;
      t
  }

  lemma {:induction false} CurrencyCharsAppend(a: string, b: string)
    ensures CurrencyChars(a + b) == CurrencyChars(a) + CurrencyChars(b)
    decreases |b|
  {
    if |b| == 0 {
      assert a + b == a;
    } else {
      assert (a + b)[..|a + b| - 1] == a + b[..|b| - 1];
      CurrencyCharsAppend(a, b[..|b| - 1]);
    }
  }

  lemma {:induction false} CurrencyCharsDigits(s: string)
    requires AllDigits(s)
    ensures CurrencyChars(s) == s
  {
    if |s| > 0 {
      CurrencyCharsDigits(s[..|s| - 1]);
      assert s == s[..|s| - 1] + [s[|s| - 1]];
    }
  }

  /** Index of the first `c` in `s`, or `|s|` when there is none. */
  function FirstIndex(s: string, c: char): (k: nat)
    ensures k <= |s|
    ensures forall i :: 0 <= i < k ==> s[i] != c
    ensures k < |s| ==> s[k] == c
  {
    if |s| == 0 then 0
    else if s[0] == c then 0
    else
      var k := 1 + FirstIndex(s[1..], c);
      assert forall i :: 1 <= i < k ==> s[i] == s[1..][i - 1];
      k
  }

  /** The value of `whole.frac`. */
  function DecimalValue(whole: string, frac: string): (v: real)
    requires AllDigits(whole) && AllDigits(frac)
    ensures v >= 0.0
  {
    DigitsToNat(whole) as real + DigitsToNat(frac) as real / Pow10(|frac|) as real
  }

  /** `Decimal(t)` for a string of digits and dots: digits with at most one
      dot and at least one digit, as in `12`, `12.5`, `.5` and `5.`. */
  function ParseDecimal(t: string): (r: Option<real>)
    requires DecimalChars(t)
    ensures r.Some? ==> r.value >= 0.0
  {
    var k := FirstIndex(t, '.');
    assert AllDigits(t[..k]);
    if k == |t| then (if |t| > 0 then Some(DigitsToNat(t) as real) else None)
    else if |t| >= 2 && AllDigits(t[k + 1..]) then Some(DecimalValue(t[..k], t[k + 1..]))
    else None
  }

  /** A string of digits and dots with no dot is all digits. */
  lemma NoDotCounts(t: string)
    requires DecimalChars(t) && FirstIndex(t, '.') == |t|
    ensures Count(t, '.') == 0 && DigitCount(t) == |t|
  {
    assert t[..|t|] == t;
    DecimalCharsCounts(t);
  }

  /** Counting a character on both sides of position `k`. */
  lemma CountAround(t: string, k: nat, c: char)
    requires k < |t|
    ensures Count(t, c) == Count(t[..k], c) + (if t[k] == c then 1 else 0) + Count(t[k + 1..], c)
  {
    var head, one, tail := t[..k], [t[k]], t[k + 1..];
    assert t == (head + one) + tail;
    CountAppend(head + one, tail, c);
    CountAppend(head, one, c);
    assert one[..0] == [];
  }

  /** Before its first dot, a string of digits and dots has no dot. */
  lemma NoDotBeforeFirst(t: string, k: nat)
    requires DecimalChars(t) && k == FirstIndex(t, '.')
    ensures Count(t[..k], '.') == 0
  {
    var head := t[..k];
    forall i | 0 <= i < |head|
      ensures IsDigit(head[i])
    {
      assert head[i] == t[i];
    }
    DecimalCharsCounts(head);
  }

  lemma DecimalCharsSuffix(t: string, j: nat)
    requires DecimalChars(t) && j <= |t|
    ensures DecimalChars(t[j..])
  {
    forall i | 0 <= i < |t| - j
      ensures IsDigit(t[j..][i]) || t[j..][i] == '.'
    {
      assert t[j..][i] == t[j + i];
    }
  }

  /** Around its first dot, a string of digits and dots has one dot more than
      its tail, and the tail is all digits exactly when it has no dot. */
  lemma FirstDotCounts(t: string, k: nat)
    requires DecimalChars(t) && k == FirstIndex(t, '.') && k < |t|
    ensures Count(t, '.') == 1 + Count(t[k + 1..], '.')
    ensures |t| == DigitCount(t) + Count(t, '.')
    ensures AllDigits(t[k + 1..]) <==> Count(t[k + 1..], '.') == 0
  {
    CountAround(t, k, '.');
    NoDotBeforeFirst(t, k);
    DecimalCharsSuffix(t, k + 1);
    DecimalCharsCounts(t[k + 1..]);
    DecimalCharsCounts(t);
  }

  /** `Decimal` rejects the cleaned string exactly when it has no digit or has
      more than one dot. */
  lemma ParseDecimalNone(t: string)
    requires DecimalChars(t)
    ensures ParseDecimal(t).None? <==> DigitCount(t) == 0 || Count(t, '.') >= 2
  {
    var k := FirstIndex(t, '.');
    if k == |t| {
      NoDotCounts(t);
    } else {
      FirstDotCounts(t, k);
    }
  }

  /** `BaseInvoiceParser.clean_currency`. */
  function CleanCurrency(s: Option<string>): (r: Option<real>)
    ensures !Present(s) ==> r.None?
    ensures r.Some? ==> r.value >= 0.0
    ensures Present(s) ==> (r.None? <==> DigitCount(s.value) == 0 || Count(s.value, ',') >= 2)
  {
    if !Present(s) then None
    else
      var t := CurrencyChars(s.value);
      ParseDecimalNone(t);
      ParseDecimal(t)
  }

  /** Digits, a dot and at least one more digit parse as that decimal. */
  lemma ParseDecimalSplit(whole: string, frac: string)
    requires AllDigits(whole) && AllDigits(frac) && |frac| >= 1
    ensures DecimalChars(whole + "." + frac)
    ensures ParseDecimal(whole + "." + frac) == Some(DecimalValue(whole, frac))
  {
    var t := whole + "." + frac;
    var k := FirstIndex(t, '.');
    assert t[|whole|] == '.';
    assert k == |whole|;
    assert t[..k] == whole && t[k + 1..] == frac;
  }

  /** A Brazilian amount without thousands separators: `123,45`. */
  function FormatBrl(cents: nat): (s: string)
  {
    NatToString(cents / 100) + "," + ZeroPad(cents % 100, 2)
  }

  lemma CurrencyCharsFormatted(n: string, z: string)
    requires AllDigits(n) && AllDigits(z)
    ensures CurrencyChars(n + "," + z) == n + "." + z
  {
    CurrencyCharsAppend(n + ",", z);
    CurrencyCharsAppend(n, ",");
    CurrencyCharsDigits(n);
    CurrencyCharsDigits(z);
    assert ","[..0] == "";
    assert CurrencyChars(",") == ".";
  }

  /** The whole and fractional digits of a formatted amount add up to it. */
  lemma FormattedParts(cents: nat)
    ensures AllDigits(NatToString(cents / 100)) && AllDigits(ZeroPad(cents % 100, 2))
    ensures |ZeroPad(cents % 100, 2)| == 2
    ensures DecimalValue(NatToString(cents / 100), ZeroPad(cents % 100, 2)) == CentsValue(cents)
  {
    ZeroPadWidth(cents % 100, 2);
    NatToStringRoundTrip(cents / 100);
    ZeroPadRoundTrip(cents % 100, 2);
    assert Pow10(2) == 100;
  }

  /** Reading back a formatted amount gives the amount. */
  lemma CleanFormatted(cents: nat)
    ensures CleanCurrency(Some(FormatBrl(cents))) == Some(CentsValue(cents))
  {
    var n := NatToString(cents / 100);
    var z := ZeroPad(cents % 100, 2);
    FormattedParts(cents);
    CurrencyCharsFormatted(n, z);
    ParseDecimalSplit(n, z);
    assert Present(Some(FormatBrl(cents)));
    assert CurrencyChars(FormatBrl(cents)) == n + "." + z;
  }

  // ---- parse_date ----

  /** `%d` or `%m` of `strptime`: one non-zero digit, or two digits with a
      value from 1 to `hi`. */
  function SmallField(p: string, hi: nat): (r: Option<nat>)
    ensures r.Some? ==> 1 <= r.value <= hi
    ensures r.Some? ==> |p| == 1 || |p| == 2
  {
    if |p| == 1 && IsDigit(p[0]) && p[0] != '0' && DigitValue(p[0]) <= hi then Some(DigitValue(p[0]))
    else if |p| == 2 && AllDigits(p) && 1 <= DigitsToNat(p) <= hi then Some(DigitsToNat(p))
    else None
  }

  /** `%Y`: exactly four digits. */
  function YearField(p: string): (r: Option<nat>)
    ensures r.Some? ==> r.value <= 9999 && |p| == 4
  {
    if |p| == 4 && AllDigits(p) then
      DigitsBound(p);
      assert Pow10(4) == 10000;
      Some(DigitsToNat(p))
    else None
  }

  lemma {:induction false} DigitsBound(s: string)
    requires AllDigits(s)
    ensures DigitsToNat(s) < Pow10(|s|)
  {
    if |s| > 0 {
      DigitsBound(s[..|s| - 1]);
    }
  }

  /** `BaseInvoiceParser.parse_date`: `strptime(s.strip(), '%d/%m/%Y')`, with
      `None` for empty input, a wrong shape, or a date the calendar lacks. */
  function ParseDate(s: string): (r: Option<Date>)
    ensures r.Some? ==> IsValid(r.value)
    ensures (forall i :: 0 <= i < |s| ==> IsPyWhitespace(s[i])) ==> r.None?
  {
    if s == "" then None
    else
      var parts := Split(PyStrip(s), '/');
      if |parts| != 3 then None
      else
        var d := SmallField(parts[0], 31);
        var m := SmallField(parts[1], 12);
        var y := YearField(parts[2]);
        if d.Some? && m.Some? && y.Some? && IsValid(Date(y.value, m.value, d.value))
        then Some(Date(y.value, m.value, d.value))
        else None
  }

  /** Day, month and year written as `dd/mm/yyyy`. */
  function FormatFields(day: nat, month: nat, year: nat): (s: string)
    requires day < 100 && month < 100 && year < 10000
    ensures |s| == 10
  {
    ZeroPadWidth(day, 2);
    ZeroPadWidth(month, 2);
    ZeroPadWidth(year, 4);
    assert Pow10(2) == 100 && Pow10(4) == 10000;
    ZeroPad(day, 2) + "/" + ZeroPad(month, 2) + "/" + ZeroPad(year, 4)
  }

  /** `d.strftime('%d/%m/%Y')`. */
  function FormatDmy(d: Date): (s: string)
    requires IsValid(d)
  {
    FormatFields(d.day, d.month, d.year)
  }

  /** Three separator-free pieces joined by slashes split back into them. */
  lemma SplitThree(a: string, b: string, c: string)
    requires '/' !in a && '/' !in b && '/' !in c
    ensures Split(a + "/" + b + "/" + c, '/') == [a, b, c]
  {
    SplitPiece(a, '/', b + "/" + c);
    SplitPiece(b, '/', c);
    SplitPiece(c, '/', "");
    assert a + "/" + b + "/" + c == a + "/" + (b + "/" + c);
  }

  lemma StripDateChars(f: string)
    requires forall i :: 0 <= i < |f| ==> IsDigit(f[i]) || f[i] == '/'
    ensures PyStrip(f) == f
  {
    assert forall i :: 0 <= i < |f| ==> !IsPyWhitespace(f[i]);
  }

  /** A written date has no surrounding whitespace. */
  lemma FormattedStrips(day: nat, month: nat, year: nat)
    requires day < 100 && month < 100 && year < 10000
    ensures PyStrip(FormatFields(day, month, year)) == FormatFields(day, month, year)
  {
    ZeroPadWidth(day, 2);
    ZeroPadWidth(month, 2);
    ZeroPadWidth(year, 4);
    assert Pow10(2) == 100 && Pow10(4) == 10000;
    var f := FormatFields(day, month, year);
    assert forall i :: 0 <= i < |f| ==> IsDigit(f[i]) || f[i] == '/';
    StripDateChars(f);
  }

  /** Fields in range, written as dd/mm/yyyy with any surrounding whitespace,
      parse to that date exactly when the calendar has it. */
  lemma ParseFields(day: nat, month: nat, year: nat, s: string)
    requires 1 <= day <= 31 && 1 <= month <= 12 && year <= 9999
    requires s != "" && PyStrip(s) == FormatFields(day, month, year)
    ensures ParseDate(s) == (if IsValid(Date(year, month, day)) then Some(Date(year, month, day)) else None)
  {
    var dd := ZeroPad(day, 2);
    var mm := ZeroPad(month, 2);
    var yy := ZeroPad(year, 4);
    ZeroPadWidth(day, 2);
    ZeroPadWidth(month, 2);
    ZeroPadWidth(year, 4);
    assert Pow10(2) == 100 && Pow10(4) == 10000;
    assert '/' !in dd && '/' !in mm && '/' !in yy;
    SplitThree(dd, mm, yy);
    ZeroPadRoundTrip(day, 2);
    ZeroPadRoundTrip(month, 2);
    ZeroPadRoundTrip(year, 4);
    assert SmallField(dd, 31) == Some(day);
    assert SmallField(mm, 12) == Some(month);
    assert YearField(yy) == Some(year);
  }

  /** A valid date written as dd/mm/yyyy reads back as itself. */
  lemma ParseFormatted(d: Date)
    requires IsValid(d)
    ensures ParseDate(FormatDmy(d)) == Some(d)
  {
    FormattedStrips(d.day, d.month, d.year);
    ParseFields(d.day, d.month, d.year, FormatDmy(d));
  }

  /** Calendar validity is checked after the shape: 31/02 never parses, and
      29/02 parses exactly in leap years. */
  lemma ParseChecksCalendar(year: nat)
    requires 1 <= year <= 9999
    ensures ParseDate(FormatFields(31, 2, year)).None?
    ensures ParseDate(FormatFields(29, 2, year)).Some? <==> IsLeapYear(year)
  {
    FormattedStrips(31, 2, year);
    ParseFields(31, 2, year, FormatFields(31, 2, year));
    FormattedStrips(29, 2, year);
    ParseFields(29, 2, year, FormatFields(29, 2, year));
  }

  /** Year 0000 has the right shape but is not a date. */
  lemma ParseRejectsYearZero(day: nat, month: nat)
    requires 1 <= day <= 31 && 1 <= month <= 12
    ensures ParseDate(FormatFields(day, month, 0)).None?
  {
    FormattedStrips(day, month, 0);
    ParseFields(day, month, 0, FormatFields(day, month, 0));
  }

  // ---- extract_text ----

  /** Number of characters of `s` that do not satisfy `ws`. */
  function Kept(s: string, ws: char -> bool): (n: nat)
    ensures n <= |s|
  {
    if |s| == 0 then 0 else Kept(s[..|s| - 1], ws) + (if ws(s[|s| - 1]) then 0 else 1)
  }

  function NonWhitespace(s: string): nat {
    Kept(s, IsPyWhitespace)
  }

  lemma {:induction false} KeptAppend(a: string, b: string, ws: char -> bool)
    ensures Kept(a + b, ws) == Kept(a, ws) + Kept(b, ws)
    decreases |b|
  {
    if |b| == 0 {
      assert a + b == a;
    } else {
      assert (a + b)[..|a + b| - 1] == a + b[..|b| - 1];
      KeptAppend(a, b[..|b| - 1], ws);
    }
  }

  lemma {:induction false} KeptNone(s: string, ws: char -> bool)
    requires forall i :: 0 <= i < |s| ==> ws(s[i])
    ensures Kept(s, ws) == 0
  {
    if |s| > 0 {
      KeptNone(s[..|s| - 1], ws);
    }
  }

  lemma DropLeading(s: string, k: nat, ws: char -> bool)
    requires k <= |s| && forall i :: 0 <= i < k ==> ws(s[i])
    ensures Kept(s[k..], ws) == Kept(s, ws)
  {
    assert s == s[..k] + s[k..];
    KeptAppend(s[..k], s[k..], ws);
    KeptNone(s[..k], ws);
  }

  lemma DropTrailing(s: string, e: nat, ws: char -> bool)
    requires e <= |s| && forall i :: |s| - e <= i < |s| ==> ws(s[i])
    ensures Kept(s[..|s| - e], ws) == Kept(s, ws)
  {
    var tail := s[|s| - e..];
    assert s == s[..|s| - e] + tail;
    KeptAppend(s[..|s| - e], tail, ws);
    assert forall i :: 0 <= i < |tail| ==> tail[i] == s[|s| - e + i];
    KeptNone(tail, ws);
  }

  /** Trimming keeps every character outside `ws`. */
  lemma TrimKeeps(s: string, ws: char -> bool)
    ensures Kept(Trim(s, ws), ws) == Kept(s, ws)
  {
    var k := LeadingCount(s, ws);
    var rest := s[k..];
    var e := TrailingCount(rest, ws);
    DropLeading(s, k, ws);
    DropTrailing(rest, e, ws);
    assert Trim(s, ws) == rest[..|rest| - e];
  }

  /** Stripping keeps every non-whitespace character. */
  lemma StripKeepsContent(s: string)
    ensures NonWhitespace(PyStrip(s)) == NonWhitespace(s)
    ensures |PyStrip(s)| >= NonWhitespace(s)
  {
    TrimKeeps(s, IsPyWhitespace);
  }

  /** The text pdfplumber yields: each page with text, followed by a newline. */
  function PagesText(pages: seq<string>): (t: string)
    ensures NonWhitespace(t) == SumNonWhitespace(pages)
  {
    if |pages| == 0 then ""
    else
      var init := PagesText(pages[..|pages| - 1]);
      var p := pages[|pages| - 1];
      if p == "" then init
      else
        KeptAppend(init + p, "\n", IsPyWhitespace);
        KeptAppend(init, p, IsPyWhitespace);
        assert NonWhitespace("\n") == 0 by {
          assert "\n"[..0] == "";
        }
        init + p + "\n"
  }

  function SumNonWhitespace(pages: seq<string>): nat {
    if |pages| == 0 then 0 else SumNonWhitespace(pages[..|pages| - 1]) + NonWhitespace(pages[|pages| - 1])
  }

  const OcrThreshold: nat := 50

  /** `BaseInvoiceParser.extract_text`: the digital text, or the OCR text when
      the digital text has fewer than 50 characters once stripped. */
  function ExtractText(pages: seq<string>, ocrText: string): (t: string)
    ensures t == ocrText || t == PagesText(pages)
    ensures t == PagesText(pages) || |PyStrip(PagesText(pages))| < OcrThreshold
  {
    var text := PagesText(pages);
    if |PyStrip(text)| < OcrThreshold then ocrText else text
  }

  /** Pages carrying at least 50 non-whitespace characters in total are never
      sent to OCR; pages carrying none always are. */
  lemma OcrThresholdByContent(pages: seq<string>, ocrText: string)
    ensures SumNonWhitespace(pages) >= OcrThreshold ==> ExtractText(pages, ocrText) == PagesText(pages)
    ensures SumNonWhitespace(pages) == 0 ==> ExtractText(pages, ocrText) == ocrText
  {
    var text := PagesText(pages);
    StripKeepsContent(text);
    if SumNonWhitespace(pages) == 0 {
      var s := PyStrip(text);
      if |s| > 0 {
        assert false;
      }
    }
  }
}
