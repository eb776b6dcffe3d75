/** Calendar dates and instants, as Python's `datetime.date` and the timestamp
    columns use them: proleptic Gregorian, year 1 to 9999. `date.today()` and
    `timezone.now()` are never read by the model; callers pass them in. */
module Dates {
  import opened Wrappers
  import opened Text

  datatype Date = Date(year: int, month: int, day: int)

  predicate IsLeapYear(y: int) {
    y % 4 == 0 && (y % 100 != 0 || y % 400 == 0)
  }

  function DaysInMonth(y: int, m: int): (n: int)
    requires 1 <= m <= 12
    ensures 28 <= n <= 31
    ensures n == 29 <==> m == 2 && IsLeapYear(y)
  {
    if m == 2 then (if IsLeapYear(y) then 29 else 28)
    else if m == 4 || m == 6 || m == 9 || m == 11 then 30
    else 31
  }

  /** Month and day in range, whatever the year. */
  predicate WellFormed(d: Date) {
    1 <= d.month <= 12 && 1 <= d.day <= DaysInMonth(d.year, d.month)
  }

  /** A value `datetime.date` accepts. */
  predicate IsValid(d: Date) {
    WellFormed(d) && 1 <= d.year <= 9999
  }

  /** Chronological order of dates (`a < b`). */
  predicate Before(a: Date, b: Date) {
    a.year < b.year
    || (a.year == b.year && a.month < b.month)
    || (a.year == b.year && a.month == b.month && a.day < b.day)
  }

  /** `max(a, b)` on dates. */
  function Later(a: Date, b: Date): (r: Date)
    ensures r == a || r == b
    ensures !Before(r, a) && !Before(r, b)
  {
    if Before(a, b) then b else a
  }

  // ---- day arithmetic ----

  /** `d.replace(day=1)`. */
  function FirstOfMonth(d: Date): (r: Date)
    ensures r.year == d.year && r.month == d.month && r.day == 1
  {
    Date(d.year, d.month, 1)
  }

  /** The first day of the month after `d`'s. */
  function NextMonthStart(d: Date): (r: Date)
    requires 1 <= d.month <= 12
    ensures WellFormed(r) && r.day == 1 && Before(d, r)
  {
    if d.month == 12 then Date(d.year + 1, 1, 1) else Date(d.year, d.month + 1, 1)
  }

  /** The first day of the month before `d`'s. */
  function PreviousMonthStart(d: Date): (r: Date)
    requires 1 <= d.month <= 12
    ensures WellFormed(r) && r.day == 1 && Before(r, FirstOfMonth(d))
  {
    if d.month == 1 then Date(d.year - 1, 12, 1) else Date(d.year, d.month - 1, 1)
  }

  /** `d + timedelta(days=n)`, one month at a time. */
  function AddDays(d: Date, n: nat): (r: Date)
    requires WellFormed(d)
    ensures WellFormed(r)
    decreases n
  {
    var left := DaysInMonth(d.year, d.month) - d.day;
    if n <= left then Date(d.year, d.month, d.day + n)
    else AddDays(NextMonthStart(d), n - left - 1)
  }

  /** `d - timedelta(days=1)`. */
  function PreviousDay(d: Date): (r: Date)
    requires WellFormed(d)
    ensures WellFormed(r) && Before(r, d)
  {
    if d.day > 1 then Date(d.year, d.month, d.day - 1)
    else if d.month > 1 then Date(d.year, d.month - 1, DaysInMonth(d.year, d.month - 1))
    else Date(d.year - 1, 12, 31)
  }

  /** `(first + timedelta(days=32)).replace(day=1)` is the next month's first day:
      32 days from a first of month always land in the following month. */
  lemma NextMonthByTimedelta(d: Date)
    requires WellFormed(d)
    ensures FirstOfMonth(AddDays(FirstOfMonth(d), 32)) == NextMonthStart(d)
  {
    var first := FirstOfMonth(d);
    var left := DaysInMonth(d.year, d.month) - 1;
    var next := NextMonthStart(d);
    assert AddDays(first, 32) == AddDays(next, 32 - left - 1);
    assert 32 - left - 1 <= DaysInMonth(next.year, next.month) - 1;
  }

  /** `(first - timedelta(days=1)).replace(day=1)` is the previous month's first day. */
  lemma PreviousMonthByTimedelta(d: Date)
    requires WellFormed(d)
    ensures FirstOfMonth(PreviousDay(FirstOfMonth(d))) == PreviousMonthStart(d)
  {
  }

  /** The window `[FirstOfMonth(t), NextMonthStart(t))` holds exactly the valid
      dates of `t`'s month. */
  lemma MonthWindow(t: Date, x: Date)
    requires WellFormed(t) && WellFormed(x)
    ensures (!Before(x, FirstOfMonth(t)) && Before(x, NextMonthStart(t)))
            <==> (x.year == t.year && x.month == t.month)
  {
  }

  /** The window `[PreviousMonthStart(t), FirstOfMonth(t))` holds exactly the
      valid dates of the month before `t`'s. */
  lemma PreviousMonthWindow(t: Date, x: Date)
    requires WellFormed(t) && WellFormed(x)
    ensures (!Before(x, PreviousMonthStart(t)) && Before(x, FirstOfMonth(t)))
            <==> (var p := PreviousMonthStart(t); x.year == p.year && x.month == p.month)
  {
  }

  // ---- ordinals and instants ----

  function DaysInYear(y: int): (n: int)
    ensures n == 365 || n == 366
  {
    if IsLeapYear(y) then 366 else 365
  }

  /** Days in the years `1 .. y - 1`. */
  function DaysBeforeYear(y: int): (n: nat)
    decreases y
  {
    if y <= 1 then 0 else DaysBeforeYear(y - 1) + DaysInYear(y - 1)
  }

  /** Days in the months `1 .. m - 1` of year `y`. */
  function DaysBeforeMonth(y: int, m: int): (n: nat)
    requires 1 <= m <= 13
    decreases m
  {
    if m == 1 then 0 else DaysBeforeMonth(y, m - 1) + DaysInMonth(y, m - 1)
  }

  lemma {:induction false} DaysBeforeMonthYear(y: int)
    ensures DaysBeforeMonth(y, 13) == DaysInYear(y)
  {
    assert DaysBeforeMonth(y, 3) == 31 + DaysInMonth(y, 2);
  }

  lemma {:induction false} DaysBeforeMonthMonotone(y: int, m: int, n: int)
    requires 1 <= m < n <= 13
    ensures DaysBeforeMonth(y, m) + DaysInMonth(y, m) <= DaysBeforeMonth(y, n)
    decreases n
  {
    if n > m + 1 {
      DaysBeforeMonthMonotone(y, m, n - 1);
    }
  }

  lemma {:induction false} DaysBeforeYearMonotone(y: int, z: int)
    requires 1 <= y < z
    ensures DaysBeforeYear(y) + DaysInYear(y) <= DaysBeforeYear(z)
    decreases z
  {
    if z > y + 1 {
      DaysBeforeYearMonotone(y, z - 1);
    }
  }

  /** Python's `date.toordinal()`: 1 for 0001-01-01, counting days. */
  function Ordinal(d: Date): (n: int)
    requires WellFormed(d)
  {
    DaysBeforeYear(d.year) + DaysBeforeMonth(d.year, d.month) + d.day
  }

  lemma OrdinalWithinYear(d: Date)
    requires WellFormed(d)
    ensures DaysBeforeYear(d.year) < Ordinal(d) <= DaysBeforeYear(d.year) + DaysInYear(d.year)
  {
    DaysBeforeMonthYear(d.year);
    if d.month < 12 {
      DaysBeforeMonthMonotone(d.year, d.month, 13);
    }
  }

  /** Chronological order and ordinal order agree on valid dates. */
  lemma OrdinalOrder(a: Date, b: Date)
    requires IsValid(a) && IsValid(b)
    ensures Before(a, b) <==> Ordinal(a) < Ordinal(b)
    ensures a == b <==> Ordinal(a) == Ordinal(b)
  {
    OrdinalWithinYear(a);
    OrdinalWithinYear(b);
    if a.year < b.year {
      DaysBeforeYearMonotone(a.year, b.year);
    } else if b.year < a.year {
      DaysBeforeYearMonotone(b.year, a.year);
    } else if a.month < b.month {
      DaysBeforeMonthMonotone(a.year, a.month, b.month);
    } else if b.month < a.month {
      DaysBeforeMonthMonotone(a.year, b.month, a.month);
    }
  }

  /** A timestamp: a calendar date and the second within that day, all in the
      one server time zone. */
  datatype Moment = Moment(date: Date, second: int)

  predicate IsValidMoment(m: Moment) {
    IsValid(m.date) && 0 <= m.second < 86400
  }

  /** Seconds since the start of 0001-01-01. */
  function Seconds(m: Moment): int
    requires WellFormed(m.date)
  {
    (Ordinal(m.date) - 1) * 86400 + m.second
  }

  /** Midnight at the start of `d` (`datetime.combine(d, time.min)`). */
  function Midnight(d: Date): (m: Moment)
    ensures m.date == d && m.second == 0
  {
    Moment(d, 0)
  }

  /** Comparing instants by seconds is comparing them by date, then time of day. */
  lemma SecondsOrder(a: Moment, b: Moment)
    requires IsValidMoment(a) && IsValidMoment(b)
    ensures Seconds(a) < Seconds(b)
            <==> Before(a.date, b.date) || (a.date == b.date && a.second < b.second)
  {
    OrdinalOrder(a.date, b.date);
  }

  // ---- rendering ----

  /** `d.isoformat()`: `YYYY-MM-DD`. */
  function IsoFormat(d: Date): (s: string)
    requires IsValid(d)
    ensures |s| == 10 && s[4] == '-' && s[7] == '-'
  {
    ZeroPadWidth(d.year, 4);
    ZeroPadWidth(d.month, 2);
    ZeroPadWidth(d.day, 2);
    ZeroPad(d.year, 4) + "-" + ZeroPad(d.month, 2) + "-" + ZeroPad(d.day, 2)
  }

  /** `date.fromisoformat` on the `YYYY-MM-DD` form: three digit fields at
      fixed places that make a valid date. */
  function ParseIso(s: string): (r: Option<Date>)
    ensures r.Some? ==> IsValid(r.value)
  {
    if |s| == 10 && s[4] == '-' && s[7] == '-'
       && AllDigits(s[..4]) && AllDigits(s[5..7]) && AllDigits(s[8..]) then
      var d := Date(DigitsToNat(s[..4]), DigitsToNat(s[5..7]), DigitsToNat(s[8..]));
      if IsValid(d) then Some(d) else None
    else None
  }

  /** Reading back an ISO rendering gives the date. */
  lemma IsoRoundTrip(d: Date)
    requires IsValid(d)
    ensures ParseIso(IsoFormat(d)) == Some(d)
  {
    var s := IsoFormat(d);
    ZeroPadWidth(d.year, 4);
    ZeroPadWidth(d.month, 2);
    ZeroPadWidth(d.day, 2);
    var y, m, dd := ZeroPad(d.year, 4), ZeroPad(d.month, 2), ZeroPad(d.day, 2);
    assert s == y + "-" + m + "-" + dd;
    assert s[..4] == y;
    assert s[5..7] == m;
    assert s[8..] == dd;
    ZeroPadRoundTrip(d.year, 4);
    ZeroPadRoundTrip(d.month, 2);
    ZeroPadRoundTrip(d.day, 2);
  }

  /** Month names in Portuguese, as the reviewer titles reports; a number
      outside 1..12 is written as itself. */
  function PortugueseMonth(m: int): (s: string)
    ensures 1 <= m <= 12 ==> |s| >= 4 && !IsDigit(s[0])
    ensures !(1 <= m <= 12) ==> s == IntToString(m)
  {
    match m
    case 1 => "Janeiro"
    case 2 => "Fevereiro"
    case 3 => "Março"
    case 4 => "Abril"
    case 5 => "Maio"
    case 6 => "Junho"
    case 7 => "Julho"
    case 8 => "Agosto"
    case 9 => "Setembro"
    case 10 => "Outubro"
    case 11 => "Novembro"
    case 12 => "Dezembro"
    case _ => IntToString(m)
  }

  /** `strftime('%B')` in the default C locale. */
  function EnglishMonth(m: int): (s: string)
    requires 1 <= m <= 12
    ensures |s| >= 3
  {
    match m
    case 1 => "January"
    case 2 => "February"
    case 3 => "March"
    case 4 => "April"
    case 5 => "May"
    case 6 => "June"
    case 7 => "July"
    case 8 => "August"
    case 9 => "September"
    case 10 => "October"
    case 11 => "November"
    case 12 => "December"
  }
}
