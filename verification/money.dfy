/** Decimal amounts. `DecimalField(max_digits=12, decimal_places=2)` columns hold
    whole cents; values read by the parsers are exact decimals (`real`) until
    they are stored. */
module Money {
  import opened Text

  /** The exact value of an amount held in cents. */
  function CentsValue(c: int): real {
    c as real / 100.0
  }

  /** Rounds an exact decimal to two places with Python's default rounding
      (half to even), as the column does when the value is saved. */
  function Quantize(r: real): (c: int)
    ensures (c as real) - 0.5 <= r * 100.0 <= (c as real) + 0.5
  {
    var scaled := r * 100.0;
    var f := scaled.Floor;
    var frac := scaled - f as real;
    if frac < 0.5 then f
    else if frac > 0.5 then f + 1
    else if f % 2 == 0 then f
    else f + 1
  }

  /** Quantizing a value that already has two places gives back its cents. */
  lemma QuantizeExact(c: int)
    ensures Quantize(CentsValue(c)) == c
  {
    assert CentsValue(c) * 100.0 == c as real;
  }

  /** Larger decimals never quantize to fewer cents. */
  lemma QuantizeMonotone(a: real, b: real)
    requires a <= b
    ensures Quantize(a) <= Quantize(b)
  {
    var fa := (a * 100.0).Floor;
    var fb := (b * 100.0).Floor;
    assert fa <= fb;
  }

  /** `str(Decimal)` for an amount with two places: optional minus, integer
      part, a dot and exactly two digits. */
  function DecimalString(c: int): (s: string)
    ensures |s| >= 4 && s[|s| - 3] == '.'
    ensures IsDigit(s[|s| - 2]) && IsDigit(s[|s| - 1])
    ensures c < 0 <==> s[0] == '-'
  {
    var m := if c < 0 then -c else c;
    ZeroPadWidth(m % 100, 2);
    (if c < 0 then "-" else "") + NatToString(m / 100) + "." + ZeroPad(m % 100, 2)
  }

  /** The two digits after the dot and the digits before it give back the amount. */
  lemma DecimalStringDigits(c: nat)
    ensures var s := DecimalString(c);
      AllDigits(s[..|s| - 3]) && AllDigits(s[|s| - 2..])
      && DigitsToNat(s[..|s| - 3]) * 100 + DigitsToNat(s[|s| - 2..]) == c
  {
    var s := DecimalString(c);
    ZeroPadWidth(c % 100, 2);
    assert s[..|s| - 3] == NatToString(c / 100);
    assert s[|s| - 2..] == ZeroPad(c % 100, 2);
    NatToStringRoundTrip(c / 100);
    ZeroPadRoundTrip(c % 100, 2);
  }
}
