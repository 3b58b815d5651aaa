/**
  The playback-progress record the player components keep in React state and
  in local storage, and what the components derive from it: the remaining-time
  label, whether the progress block is shown, and the restore of a stored
  record. The media element is `AudioElement`, with times in whole seconds.
*/
module PlayerProgress {
  import opened Wrappers
  import opened JsText
  import opened Numbers
  import opened JsonText
  import opened BrowserStorage

  /** The part of an `HTMLAudioElement` the players touch. */
  class AudioElement {
    var currentTime: int
    var paused: bool

    constructor ()
      ensures currentTime == 0 && paused
    {
      currentTime := 0;
      paused := true;
    }
  }

  /** `${id}-progress`, the key a record is stored under. */
  function ProgressKey(idText: string): (key: string)
    ensures |key| == |idText| + 9 && key[..|idText|] == idText && key[|idText|..] == "-progress"
  {
    idText + "-progress"
  }

  /** `{ currentTime, duration }`, the record a time update writes. */
  function TimeRecord(currentTime: int, duration: int): (r: Json)
    ensures r.JObj?
    ensures LastMember(r.members, "currentTime") == Some(JNum(currentTime))
    ensures LastMember(r.members, "duration") == Some(JNum(duration))
  {
    JObj([Member("currentTime", JNum(currentTime)), Member("duration", JNum(duration))])
  }

  /** The state a component starts with: `{ <field>: 0, duration: 0 }`. */
  function InitialProgress(field: string): (r: Json)
    ensures r.JObj?
    ensures LastMember(r.members, field) == Some(JNum(0))
    ensures LastMember(r.members, "duration") == Some(JNum(0))
  {
    JObj([Member(field, JNum(0)), Member("duration", JNum(0))])
  }

  /** What a restore effect finds under `key`: nothing when the item is absent or
      empty, the parsed value, or the SyntaxError of `JSON.parse`. */
  function StoredProgress(items: map<string, string>, key: string): (r: Result<Option<Json>, JsError>)
    ensures r == Ok(None) <==> !Truthy(GetItem(items, key))
    ensures r.Err? <==> Truthy(GetItem(items, key)) && Parse(items[key]).None?
    ensures r.Err? ==> r.error == SyntaxError
    ensures r.Ok? && r.value.Some? ==> Parse(items[key]) == r.value
  {
    var stored := GetItem(items, key);
    if !Truthy(stored) then Ok(None)
    else
      match Parse(stored.value)
      case Some(v) => Ok(Some(v))
      case None => Err(SyntaxError)
  }

  /** `const { currentTime } = JSON.parse(storedProgress)`: the parsed record and
      its `currentTime`, or the error that stops the effect first. */
  function RestoredRecord(items: map<string, string>, key: string): (r: Result<Option<(Json, Prop)>, JsError>)
    ensures r == Ok(None) <==> !Truthy(GetItem(items, key))
    ensures r.Ok? && r.value.Some? ==> StoredProgress(items, key) == Ok(Some(r.value.value.0))
    ensures r.Ok? && r.value.Some? ==> GetProp(r.value.value.0, "currentTime") == Some(r.value.value.1)
    ensures r.Err? ==> StoredProgress(items, key).Err? || StoredProgress(items, key) == Ok(Some(JNull))
  {
    match StoredProgress(items, key)
    case Err(e) => Err(e)
    case Ok(None) => Ok(None)
    case Ok(Some(v)) =>
      match GetProp(v, "currentTime")
      case None => Err(TypeError)
      case Some(p) => Ok(Some((v, p)))
  }

  /** `audio.currentTime = currentTime`: the property converts its value to a
      number, and a value that is not finite throws a TypeError. */
  function SeekTarget(p: Prop): (r: Result<int, JsError>)
    ensures r.Ok? <==> ToNumber(p).Finite?
    ensures r.Ok? ==> r.value == ToNumber(p).value
    ensures r.Err? ==> r.error == TypeError
  {
    match ToNumber(p)
    case Finite(n) => Ok(n)
    case NaN => Err(TypeError)
  }

  /** Any value written under `key` is what the next read of `key` parses. */
  lemma StoredAfterWrite(items: map<string, string>, key: string, v: Json)
    ensures StoredProgress(items[key := Serialise(v)], key) == Ok(Some(v))
  {
    var written := items[key := Serialise(v)];
    assert |Serialise(v)| > 0;
    ParseSerialise(v);
    assert GetItem(written, key) == Some(Serialise(v));
  }

  /** A record written under `key` is what the next restore finds. */
  lemma RestoreAfterWrite(items: map<string, string>, key: string, currentTime: int, duration: int)
    ensures var record := TimeRecord(currentTime, duration);
      RestoredRecord(items[key := Serialise(record)], key) == Ok(Some((record, Defined(JNum(currentTime)))))
  {
    var record := TimeRecord(currentTime, duration);
    StoredAfterWrite(items, key, record);
    assert LastMember(record.members, "currentTime") == Some(JNum(currentTime));
    assert GetProp(record, "currentTime") == Some(Defined(JNum(currentTime)));
  }

  /** With nothing stored under `key` there is nothing to restore. */
  lemma RestoreWithoutRecord(items: map<string, string>, key: string)
    requires key !in items
    ensures RestoredRecord(items, key) == Ok(None)
  {
  }

  // ---------------------------------------------------------------- display

  /** The remaining-time label, `<minutes>m <seconds>s left`: the remaining time is
      `duration - <field>`, the minutes its floor division by 60 and the seconds
      its remainder, padded to two characters. Reading a field of `null` throws. */
  function RemainingLabel(progress: Json, field: string): (r: Result<string, JsError>)
    ensures r.Err? <==> progress.JNull?
  {
    match (GetProp(progress, "duration"), GetProp(progress, field))
    case (Some(d), Some(p)) =>
      Ok(LabelText(Sub(ToNumber(d), ToNumber(p))))
    case _ => Err(TypeError)
  }

  /** `${Math.floor(r / 60)}m ${Math.floor(r % 60).toString().padStart(2, "0")}s left`.
      For a remaining time that is not negative the label shows the whole
      minutes left and two digits of seconds, which together give the time back;
      a negative time shows the minutes rounded down and the remainder truncated
      towards zero, so -90 shows "-2m -30s left"; NaN shows "NaN" twice. */
  function LabelText(remaining: Number): (r: string)
    ensures remaining.Finite? && remaining.value >= 0 ==>
      var v := remaining.value;
      var ss := PadStart(IntToDecimal(v % 60), 2, '0');
      && r == IntToDecimal(v / 60) + "m " + ss + "s left"
      && |ss| == 2 && AllDigits(ss) && 60 * (v / 60) + DecimalValue(ss) == v
    ensures remaining.Finite? && remaining.value < 0 ==>
      var v := remaining.value;
      && r == IntToDecimal(FloorDiv(remaining, 60).value) + "m " + NegativeSeconds(-Rem(remaining, 60).value) + "s left"
      && FloorDiv(remaining, 60).value < 0 && |r| > 0 && r[0] == '-'
    ensures remaining.NaN? ==> r == "NaNm NaNs left"
  {
    LabelCases(remaining);
    LabelOf(remaining)
  }

  /** The three cases of the label, one lemma per case. */
  lemma LabelCases(remaining: Number)
    ensures remaining.Finite? && remaining.value >= 0 ==>
      var v := remaining.value;
      var ss := PadStart(IntToDecimal(v % 60), 2, '0');
      && LabelOf(remaining) == IntToDecimal(v / 60) + "m " + ss + "s left"
      && |ss| == 2 && AllDigits(ss) && 60 * (v / 60) + DecimalValue(ss) == v
    ensures remaining.Finite? && remaining.value < 0 ==>
      var v := remaining.value;
      && LabelOf(remaining) == IntToDecimal(FloorDiv(remaining, 60).value) + "m " + NegativeSeconds(-Rem(remaining, 60).value) + "s left"
      && FloorDiv(remaining, 60).value < 0 && |LabelOf(remaining)| > 0 && LabelOf(remaining)[0] == '-'
    ensures remaining.NaN? ==> LabelOf(remaining) == "NaNm NaNs left"
  {
    match remaining
    case Finite(v) =>
      if v >= 0 {
        NaturalLabel(v);
      } else {
        NegativeLabel(v);
      }
    case NaN =>
      NaNLabel();
  }

  /** The template string itself. */
  function LabelOf(remaining: Number): string {
    NumberToString(FloorDiv(remaining, 60)) + "m "
    + PadStart(NumberToString(Rem(remaining, 60)), 2, '0') + "s left"
  }

  lemma NaturalLabel(v: int)
    requires v >= 0
    ensures var ss := PadStart(IntToDecimal(v % 60), 2, '0');
      && LabelOf(Finite(v)) == IntToDecimal(v / 60) + "m " + ss + "s left"
      && |ss| == 2 && AllDigits(ss) && 60 * (v / 60) + DecimalValue(ss) == v
  {
    assert FloorDiv(Finite(v), 60) == Finite(v / 60);
    assert Rem(Finite(v), 60) == Finite(v % 60);
    PaddedSeconds(v % 60);
  }

  /** The padded seconds of a negative time whose size modulo 60 is `k`:
      `k` seconds written with a minus sign, or "00" when `k` is 0. */
  function NegativeSeconds(k: int): string {
    if k == 0 then "00" else "-" + IntToDecimal(k)
  }

  lemma NegativeLabel(v: int)
    requires v < 0
    ensures var r := LabelOf(Finite(v));
      && r == IntToDecimal(FloorDiv(Finite(v), 60).value) + "m " + NegativeSeconds(-Rem(Finite(v), 60).value) + "s left"
      && FloorDiv(Finite(v), 60).value < 0 && |r| > 0 && r[0] == '-'
  {
    var k := -Rem(Finite(v), 60).value;
    if k == 0 {
      assert IntToDecimal(0) == "0";
      assert PadStart("0", 2, '0') == "00";
    } else {
      assert IntToDecimal(-k) == "-" + IntToDecimal(k);
    }
  }

  /** A minute and a half left over shows as "-2m -30s left". */
  lemma NegativeLabelExample()
    ensures LabelText(Finite(-90)) == "-2m -30s left"
  {
    var r := LabelText(Finite(-90));
    MinusNinety();
    assert r == IntToDecimal(-2) + "m " + NegativeSeconds(30) + "s left";
    MinusNumerals();
    LabelOfParts(r, IntToDecimal(-2), NegativeSeconds(30));
  }

  lemma LabelOfParts(r: string, minutes: string, seconds: string)
    requires minutes == "-2" && seconds == "-30"
    requires r == minutes + "m " + seconds + "s left"
    ensures r == "-2m -30s left"
  {
  }

  lemma MinusNinety()
    ensures FloorDiv(Finite(-90), 60) == Finite(-2) && Rem(Finite(-90), 60) == Finite(-30)
  {
  }

  lemma MinusNumerals()
    ensures IntToDecimal(-2) == "-2" && NegativeSeconds(30) == "-30"
  {
    assert NatToDecimal(2) == "2";
    assert NatToDecimal(3) == "3";
    assert NatToDecimal(30) == NatToDecimal(3) + "0";
  }

  lemma NaNLabel()
    ensures LabelOf(NaN) == "NaNm NaNs left"
  {
    assert FloorDiv(NaN, 60) == NaN && Rem(NaN, 60) == NaN;
    assert NumberToString(NaN) == "NaN";
    assert PadStart("NaN", 2, '0') == "NaN";
    assert LabelOf(NaN) == "NaN" + "m " + "NaN" + "s left";
    assert "NaN" + "m " + "NaN" + "s left" == "NaNm NaNs left";
  }

  /** `progress.<field> != 0`: whether the progress block is rendered. */
  function ProgressVisible(progress: Json, field: string): (r: Result<bool, JsError>)
    ensures r.Err? <==> progress.JNull?
  {
    match GetProp(progress, field)
    case Some(p) => Ok(LooseNotZero(p))
    case None => Err(TypeError)
  }

  /** A seconds value below 60, padded, is two digits that read back as the value. */
  lemma PaddedSeconds(k: int)
    requires 0 <= k < 60
    ensures var ss := PadStart(IntToDecimal(k), 2, '0');
      |ss| == 2 && AllDigits(ss) && DecimalValue(ss) == k
  {
    var ss := PadStart(IntToDecimal(k), 2, '0');
    DecimalRoundTrip(k);
    if k < 10 {
      assert IntToDecimal(k) == [DigitChar(k)];
      assert ss == ['0', DigitChar(k)];
      assert ss[..1] == ['0'];
    } else {
      assert NatToDecimal(k) == NatToDecimal(k / 10) + [DigitChar(k % 10)];
      assert NatToDecimal(k / 10) == [DigitChar(k / 10)];
    }
  }

  /** The label of a stored record is the label of its remaining time,
      `duration - currentTime`. */
  lemma RemainingOfRecord(currentTime: int, duration: int)
    ensures RemainingLabel(TimeRecord(currentTime, duration), "currentTime")
         == Ok(LabelText(Finite(duration - currentTime)))
  {
    var record := TimeRecord(currentTime, duration);
    assert LastMember(record.members, "currentTime") == Some(JNum(currentTime));
    assert LastMember(record.members, "duration") == Some(JNum(duration));
    assert GetProp(record, "duration") == Some(Defined(JNum(duration)));
    assert GetProp(record, "currentTime") == Some(Defined(JNum(currentTime)));
    assert ToNumber(Defined(JNum(duration))) == Finite(duration);
    assert ToNumber(Defined(JNum(currentTime))) == Finite(currentTime);
    assert Sub(Finite(duration), Finite(currentTime)) == Finite(duration - currentTime);
  }

  /** The progress block of a record is shown exactly when its position is not 0,
      and the initial state shows none. */
  lemma VisibleOfRecord(currentTime: int, duration: int, field: string)
    ensures ProgressVisible(TimeRecord(currentTime, duration), "currentTime") == Ok(currentTime != 0)
    ensures ProgressVisible(InitialProgress(field), field) == Ok(false)
  {
    var record := TimeRecord(currentTime, duration);
    assert LastMember(record.members, "currentTime") == Some(JNum(currentTime));
    assert LastMember(InitialProgress(field).members, field) == Some(JNum(0));
  }
}
