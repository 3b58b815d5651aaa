/**
  JavaScript numbers as the front end meets them: media times and counts
  are whole seconds or whole items, so a number is an integer or NaN.
  `Number(s)`, `String(x)`, subtraction, `Math.floor(x / d)` and the
  truncating remainder `x % d` are written out for that domain.
*/
module Numbers {
  import opened JsText

  datatype Number = Finite(value: int) | NaN

  /** `String(x)`: only NaN is written "NaN"; a number is written with its sign. */
  function NumberToString(x: Number): (r: string)
    ensures (r == "NaN") <==> x.NaN?
    ensures x.Finite? ==> |r| > 0 && ((r[0] == '-') <==> x.value < 0)
  {
    match x
    case Finite(n) => IntToDecimal(n)
    case NaN => "NaN"
  }

  /** `Number(String(x))` is `x`, NaN included. */
  lemma NumberToStringRoundTrip(x: Number)
    ensures StringToNumber(NumberToString(x)) == x
  {
    match x
    case Finite(n) => StringToNumberOfDecimal(n);
    case NaN =>
      assert TrimStart("NaN") == "NaN";
      assert TrimEnd("NaN") == "NaN";
      assert !IsDigit("NaN"[0]);
  }

  /** `a - b`: NaN as soon as either side is NaN. */
  function Sub(a: Number, b: Number): (r: Number)
    ensures r.Finite? <==> a.Finite? && b.Finite?
    ensures r.Finite? ==> r.value + b.value == a.value
  {
    if a.Finite? && b.Finite? then Finite(a.value - b.value) else NaN
  }

  /** `Math.floor(a / d)` for a positive divisor. */
  function FloorDiv(a: Number, d: nat): (r: Number)
    requires d > 0
    ensures r.Finite? <==> a.Finite?
    ensures r.Finite? ==> d * r.value <= a.value < d * r.value + d
  {
    match a
    case Finite(n) => Finite(n / d)
    case NaN => NaN
  }

  /** `a % d` for a positive divisor: JavaScript's remainder takes the sign of the dividend. */
  function Rem(a: Number, d: nat): (r: Number)
    requires d > 0
    ensures r.Finite? <==> a.Finite?
    ensures r.Finite? && a.value >= 0 ==> 0 <= r.value < d
    ensures r.Finite? && a.value < 0 ==> -(d as int) < r.value <= 0
    ensures r.Finite? ==> (a.value - r.value) % (d as int) == 0
  {
    match a
    case Finite(n) =>
      var m: int := if n >= 0 then n else -n;
      MultipleOfDivisor(m, d);
      Finite(if n >= 0 then m % d else -(m % d))
    case NaN => NaN
  }

  /** Taking the remainder off leaves a multiple of the divisor, on either side of 0. */
  lemma MultipleOfDivisor(m: int, d: nat)
    requires d > 0
    ensures (m - m % d) % (d as int) == 0 && (-m + m % d) % (d as int) == 0
  {
    var q := m / d;
    assert m - m % d == d * q;
    assert -m + m % d == d * (-q);
    MultipleMod(q, d);
    MultipleMod(-q, d);
  }

  lemma MultipleMod(q: int, d: nat)
    requires d > 0
    ensures (d * q) % (d as int) == 0
  {
    var k := (d * q) / d;
    var r := (d * q) % d;
    assert d * q == d * k + r && 0 <= r < d;
    assert d * (q - k) == r by {
      assert d * q - d * k == d * (q - k);
    }
    if q - k >= 1 {
      assert false;
    } else if q - k <= -1 {
      assert false;
    }
  }

  /** `Number(s)` on the decimal-integer strings: surrounding white space is
      ignored, the empty string is 0, an optional sign may precede the digits,
      and anything else is NaN. */
  function StringToNumber(s: string): (r: Number)
    ensures Trim(s) == [] ==> r == Finite(0)
    ensures r.Finite? && Trim(s) != [] ==> AllDigits(Trim(s)[1..])
    ensures r.Finite? && r.value < 0 ==> Trim(s)[0] == '-'
  {
    var t := Trim(s);
    assert t != [] && AllDigits(t) ==> AllDigits(t[1..]);
    if t == [] then Finite(0)
    else if t[0] == '-' || t[0] == '+' then
      var digits := t[1..];
      if digits != [] && AllDigits(digits) then
        Finite(if t[0] == '-' then 0 - DecimalValue(digits) else DecimalValue(digits))
      else NaN
    else if AllDigits(t) then Finite(DecimalValue(t))
    else NaN
  }

  /** Reading back what `String(n)` wrote gives `n`. */
  lemma StringToNumberOfDecimal(n: int)
    ensures StringToNumber(IntToDecimal(n)) == Finite(n)
  {
    var s := IntToDecimal(n);
    var m: nat := if n < 0 then -n else n;
    assert !IsJsWhitespace(s[0]);
    assert !IsJsWhitespace(s[|s| - 1]);
    assert Trim(s) == s;
    DecimalRoundTrip(m);
    if n < 0 {
      assert s[1..] == NatToDecimal(m);
    }
  }
}
