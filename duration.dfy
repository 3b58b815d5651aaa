/**
  The `Duration` component of components/MainPlayer/Duration.tsx: a time in
  seconds written as `mm:ss` through the UTC minutes and seconds of
  `new Date(time * 1000)`, and the ISO 8601 `dateTime` attribute beside it.
*/
module Duration {
  import opened JsText
  import opened Numbers

  /** The largest distance from the epoch, in milliseconds, a `Date` can hold. */
  const MaxTimeValue: int := 8_640_000_000_000_000

  /** `new Date(time * 1000)` is a valid date. */
  predicate ValidTime(t: int) {
    -MaxTimeValue <= t * 1000 <= MaxTimeValue
  }

  /** `pad(value)`: values below 10 get a leading "0"; NaN is not below 10.
      A natural is written in at least two digits that read back as the value,
      and in exactly two below 100; a negative value keeps its sign behind the "0". */
  function Pad(value: Number): (r: string)
    ensures value.NaN? ==> r == "NaN"
    ensures value.Finite? && value.value >= 0 ==>
      |r| >= 2 && AllDigits(r) && DecimalValue(r) == value.value && (value.value < 100 ==> |r| == 2)
    ensures value.Finite? && value.value < 0 ==> |r| >= 3 && r[..2] == "0-"
  {
    match value
    case Finite(n) =>
      if n >= 0 then PadDigits(n); if n < 10 then "0" + IntToDecimal(n) else IntToDecimal(n)
      else if n < 10 then "0" + IntToDecimal(n) else IntToDecimal(n)
    case NaN => "NaN"
  }

  /** The digits `pad` writes for a natural. */
  lemma PadDigits(n: nat)
    ensures n < 10 ==> var s := "0" + IntToDecimal(n);
      |s| == 2 && AllDigits(s) && DecimalValue(s) == n
    ensures n >= 10 ==> var s := IntToDecimal(n);
      |s| >= 2 && AllDigits(s) && DecimalValue(s) == n && (n < 100 ==> |s| == 2)
  {
    DecimalRoundTrip(n);
    if n < 10 {
      var s := "0" + IntToDecimal(n);
      assert NatToDecimal(n) == [DigitChar(n)];
      assert s == ['0', DigitChar(n)];
      assert s[..1] == ['0'];
    } else {
      assert NatToDecimal(n) == NatToDecimal(n / 10) + [DigitChar(n % 10)];
      if n < 100 {
        assert NatToDecimal(n / 10) == [DigitChar(n / 10)];
      }
    }
  }

  /** `getUTCMinutes()`: NaN for an invalid date; dates before the epoch count
      back from a whole hour, so the field is never negative. */
  function UtcMinutes(t: Number): (m: Number)
    ensures m.Finite? <==> t.Finite? && ValidTime(t.value)
    ensures m.Finite? ==> 0 <= m.value < 60
    ensures m.Finite? ==> m.value == (t.value % 3600) / 60
  {
    if t.Finite? && ValidTime(t.value) then HourSplit(t.value); Finite((t.value / 60) % 60) else NaN
  }

  /** `getUTCSeconds()`. */
  function UtcSeconds(t: Number): (s: Number)
    ensures s.Finite? <==> t.Finite? && ValidTime(t.value)
    ensures s.Finite? ==> 0 <= s.value < 60
    ensures s.Finite? ==> (t.value - s.value) % 60 == 0
  {
    if t.Finite? && ValidTime(t.value) then Finite(t.value % 60) else NaN
  }

  /** `format(time)`: a valid time is written as five characters, two digits,
      a colon and two digits; an invalid one as "NaN:NaN". */
  function Format(t: Number): (r: string)
    ensures t.Finite? && ValidTime(t.value) ==>
      |r| == 5 && r[2] == ':' && AllDigits(r[..2]) && AllDigits(r[3..])
    ensures !(t.Finite? && ValidTime(t.value)) ==> r == "NaN:NaN"
  {
    var mm := Pad(UtcMinutes(t));
    var ss := Pad(UtcSeconds(t));
    var r := mm + ":" + ss;
    if t.Finite? && ValidTime(t.value) then
      assert r[..2] == mm && r[3..] == ss;
      r
    else r
  }

  /** The `dateTime` attribute, `P<seconds>S`; rounding leaves whole seconds alone. */
  function DateTimeAttr(seconds: Number): (r: string)
    ensures |r| >= 3 && r[0] == 'P' && r[|r| - 1] == 'S'
    ensures r[1..|r| - 1] == NumberToString(seconds)
  {
    "P" + NumberToString(seconds) + "S"
  }

  /** Reading `mm:ss` back as `60 * mm + ss` gives the time within its hour:
      for times before the epoch too, since the fields count from the hour below. */
  lemma FormatReadBack(t: int)
    requires ValidTime(t)
    ensures var f := Format(Finite(t));
      |f| == 5 && AllDigits(f[..2]) && AllDigits(f[3..])
      && DecimalValue(f[..2]) == (t / 60) % 60 && DecimalValue(f[3..]) == t % 60
      && 60 * DecimalValue(f[..2]) + DecimalValue(f[3..]) == t % 3600
  {
    var f := Format(Finite(t));
    assert f[..2] == Pad(Finite((t / 60) % 60));
    assert f[3..] == Pad(Finite(t % 60));
    HourSplit(t);
  }

  /** `t mod 3600` is the minutes within the hour and the seconds within the minute. */
  lemma HourSplit(t: int)
    ensures 60 * ((t / 60) % 60) + t % 60 == t % 3600
  {
    var q := t / 60;
    var s := t % 60;
    assert t == 60 * q + s;
    var h := q / 60;
    var m := q % 60;
    assert q == 60 * h + m;
    assert t == 3600 * h + (60 * m + s);
    assert 0 <= 60 * m + s < 3600;
  }

  /** Hours are dropped: a time an hour later is written the same. */
  lemma FormatDropsHours(t: int)
    requires ValidTime(t) && ValidTime(t + 3600)
    ensures Format(Finite(t + 3600)) == Format(Finite(t))
  {
    assert (t + 3600) % 60 == t % 60;
    assert (t + 3600) / 60 == t / 60 + 60;
    assert (t / 60 + 60) % 60 == (t / 60) % 60;
  }
}
