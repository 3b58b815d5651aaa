/**
  The JSON values the front end keeps in local storage, `JSON.stringify`
  (`Serialise`) and `JSON.parse` (`Parse`, which fails where the built-in
  throws a SyntaxError), and JavaScript property reads on a parsed value.

  `Serialise` follows `JSON.stringify` for these values: no white space,
  integers in decimal, and the escapes `\"`, `\\`, `\b`, `\f`, `\n`, `\r`,
  `\t` and `\u00xx` for the other control characters. An object keeps every
  member in text order, duplicates included, where a JavaScript object keeps
  one entry per name. `Parse` accepts
  white space between tokens and every escape of the JSON grammar; the
  numbers it reads are integers.
*/
module JsonText {
  import opened Wrappers
  import opened JsText
  import opened Numbers

  datatype Json =
    | JNull
    | JBool(b: bool)
    | JNum(n: int)
    | JStr(s: string)
    | JArr(items: seq<Json>)
    | JObj(members: seq<Member>)

  /** An object member, kept in text order. */
  datatype Member = Member(name: string, value: Json)

  /** The exceptions the modelled code can raise: `JSON.parse` on bad text, and a
      property read or call on a value that does not have it. */
  datatype JsError = SyntaxError | TypeError

  // ================================================================ JSON.stringify

  function HexDigit(d: nat): (c: char)
    requires d < 16
  {
    if d < 10 then DigitChar(d) else ('a' as int + d - 10) as char
  }

  function EscapeChar(c: char): string {
    if c == '"' then "\\\""
    else if c == '\\' then "\\\\"
    else if c == '\U{0008}' then "\\b"
    else if c == '\U{000C}' then "\\f"
    else if c == '\n' then "\\n"
    else if c == '\r' then "\\r"
    else if c == '\t' then "\\t"
    else if c < ' ' then "\\u00" + [HexDigit(c as int / 16), HexDigit(c as int % 16)]
    else [c]
  }

  function Escape(s: string): string {
    if s == [] then [] else EscapeChar(s[0]) + Escape(s[1..])
  }

  function Quote(s: string): string {
    "\"" + Escape(s) + "\""
  }

  function Serialise(j: Json): (r: string)
    ensures |r| > 0
    ensures match j
      case JNull => r[0] == 'n'
      case JBool(b) => r[0] == (if b then 't' else 'f')
      case JNum(n) => r[0] == '-' || IsDigit(r[0])
      case JStr(_) => r[0] == '"'
      case JArr(_) => r[0] == '['
      case JObj(_) => r[0] == '{'
    decreases j
  {
    match j
    case JNull => "null"
    case JBool(b) => if b then "true" else "false"
    case JNum(n) => IntToDecimal(n)
    case JStr(s) => Quote(s)
    case JArr(items) => "[" + SerialiseItems(items) + "]"
    case JObj(members) => "{" + SerialiseMembers(members) + "}"
  }

  function SerialiseItems(items: seq<Json>): string
    decreases items
  {
    if items == [] then []
    else if |items| == 1 then Serialise(items[0])
    else Serialise(items[0]) + "," + SerialiseItems(items[1..])
  }

  function SerialiseMembers(members: seq<Member>): string
    decreases members
  {
    if members == [] then []
    else
      var m := members[0];
      var first := Quote(m.name) + ":" + Serialise(m.value);
      if |members| == 1 then first else first + "," + SerialiseMembers(members[1..])
  }

  // ================================================================ JSON.parse

  predicate IsJsonWs(c: char) {
    c == ' ' || c == '\t' || c == '\n' || c == '\r'
  }

  function SkipWs(s: string): (r: string)
    ensures |r| <= |s|
    ensures r == [] || !IsJsonWs(r[0])
  {
    if s != [] && IsJsonWs(s[0]) then
      var r := SkipWs(s[1..]);
      assert s[1..][|s| - 1 - |r|..] == s[|s| - |r|..];
      assert forall i :: 1 <= i < |s| - |r| ==> s[i] == s[1..][i - 1];
      r
    else s
  }

  /** `SkipWs` removes a prefix of white space and nothing else. */
  lemma {:induction false} SkipWsBlank(s: string)
    ensures var r := SkipWs(s);
      r == s[|s| - |r|..] && forall i :: 0 <= i < |s| - |r| ==> IsJsonWs(s[i])
  {
    if s != [] && IsJsonWs(s[0]) {
      var r := SkipWs(s[1..]);
      SkipWsBlank(s[1..]);
      assert s[1..][|s| - 1 - |r|..] == s[|s| - |r|..];
      assert forall i :: 1 <= i < |s| - |r| ==> s[i] == s[1..][i - 1];
    }
  }

  function HexValue(c: char): Option<nat> {
    if '0' <= c <= '9' then Some(c as int - '0' as int)
    else if 'a' <= c <= 'f' then Some(c as int - 'a' as int + 10)
    else if 'A' <= c <= 'F' then Some(c as int - 'A' as int + 10)
    else None
  }

  /** Four hexadecimal digits, most significant first. */
  function Hex4(s: string): Option<nat>
    requires |s| >= 4
  {
    match (HexValue(s[0]), HexValue(s[1]), HexValue(s[2]), HexValue(s[3]))
    case (Some(a), Some(b), Some(c), Some(d)) => Some(((a * 16 + b) * 16 + c) * 16 + d)
    case _ => None
  }

  /** The character an escape sequence stands for; `s` starts after the backslash.
      A `\u` escape naming a surrogate code point is refused (a character here is
      a Unicode scalar value). */
  function Unescape(s: string): (r: Option<(char, string)>)
    ensures r.Some? ==> |r.value.1| < |s|
  {
    if s == [] then None
    else if s[0] == '"' then Some(('"', s[1..]))
    else if s[0] == '\\' then Some(('\\', s[1..]))
    else if s[0] == '/' then Some(('/', s[1..]))
    else if s[0] == 'b' then Some(('\U{0008}', s[1..]))
    else if s[0] == 'f' then Some(('\U{000C}', s[1..]))
    else if s[0] == 'n' then Some(('\n', s[1..]))
    else if s[0] == 'r' then Some(('\r', s[1..]))
    else if s[0] == 't' then Some(('\t', s[1..]))
    else if s[0] == 'u' && |s| >= 5 then
      match Hex4(s[1..5])
      case Some(code) =>
        if code < 0xD800 || 0xE000 <= code < 0x11_0000 then Some((code as char, s[5..])) else None
      case None => None
    else None
  }

  /** The body of a string literal up to and including its closing quote;
      `s` starts after the opening quote. */
  function ParseStringBody(s: string): (r: Option<(string, string)>)
    ensures r.Some? ==> |r.value.1| < |s|
    decreases |s|
  {
    if s == [] then None
    else if s[0] == '"' then Some(([], s[1..]))
    else if s[0] < ' ' then None
    else if s[0] == '\\' then
      match Unescape(s[1..])
      case None => None
      case Some((c, rest)) =>
        match ParseStringBody(rest)
        case None => None
        case Some((body, after)) => Some(([c] + body, after))
    else
      match ParseStringBody(s[1..])
      case None => None
      case Some((body, after)) => Some(([s[0]] + body, after))
  }

  /** The number of leading decimal digits of `s`. */
  function DigitRun(s: string): (k: nat)
    ensures k <= |s| && AllDigits(s[..k])
    ensures k < |s| ==> !IsDigit(s[k])
  {
    if s != [] && IsDigit(s[0]) then 1 + DigitRun(s[1..]) else 0
  }

  /** An unsigned integer in JSON syntax: `0` or a digit string without a leading
      zero. A fraction or an exponent is refused (numbers here are integers). */
  function ParseNat(s: string): (r: Option<(nat, string)>)
    ensures r.Some? ==> |r.value.1| < |s|
  {
    var k := DigitRun(s);
    if k == 0 || (k > 1 && s[0] == '0') then None
    else if k < |s| && (s[k] == '.' || s[k] == 'e' || s[k] == 'E') then None
    else Some((DecimalValue(s[..k]), s[k..]))
  }

  function ParseNumber(s: string): (r: Option<(Json, string)>)
    ensures r.Some? ==> |r.value.1| < |s|
  {
    if s != [] && s[0] == '-' then
      match ParseNat(s[1..])
      case Some((n, rest)) => Some((JNum(-(n as int)), rest))
      case None => None
    else
      match ParseNat(s)
      case Some((n, rest)) => Some((JNum(n), rest))
      case None => None
  }

  function ParseLiteral(s: string, word: string, v: Json): (r: Option<(Json, string)>)
    requires |word| > 0
    ensures r.Some? ==> |r.value.1| < |s|
  {
    if StartsWith(s, word) then Some((v, s[|word|..])) else None
  }

  /** One value, after any leading white space; returns the value and the text after it. */
  function ParseValue(s: string): (r: Option<(Json, string)>)
    ensures r.Some? ==> |r.value.1| < |s|
    decreases |s|, 0
  {
    var t := SkipWs(s);
    if t == [] then None
    else if t[0] == 'n' then ParseLiteral(t, "null", JNull)
    else if t[0] == 't' then ParseLiteral(t, "true", JBool(true))
    else if t[0] == 'f' then ParseLiteral(t, "false", JBool(false))
    else if t[0] == '"' then
      match ParseStringBody(t[1..])
      case Some((str, rest)) => Some((JStr(str), rest))
      case None => None
    else if t[0] == '[' then ParseArray(t[1..])
    else if t[0] == '{' then ParseObject(t[1..])
    else if t[0] == '-' || IsDigit(t[0]) then ParseNumber(t)
    else None
  }

  /** An array; `s` starts after the `[`. */
  function ParseArray(s: string): (r: Option<(Json, string)>)
    ensures r.Some? ==> |r.value.1| < |s|
    decreases |s|, 2
  {
    var t := SkipWs(s);
    if t != [] && t[0] == ']' then Some((JArr([]), t[1..]))
    else
      match ParseElements(s)
      case Some((items, rest)) => Some((JArr(items), rest))
      case None => None
  }

  /** `value (, value)* ]`. */
  function ParseElements(s: string): (r: Option<(seq<Json>, string)>)
    ensures r.Some? ==> |r.value.1| < |s|
    decreases |s|, 1
  {
    match ParseValue(s)
    case None => None
    case Some((v, rest)) =>
      var t := SkipWs(rest);
      if t == [] then None
      else if t[0] == ']' then Some(([v], t[1..]))
      else if t[0] == ',' then
        match ParseElements(t[1..])
        case Some((vs, after)) => Some(([v] + vs, after))
        case None => None
      else None
  }

  /** An object; `s` starts after the `{`. */
  function ParseObject(s: string): (r: Option<(Json, string)>)
    ensures r.Some? ==> |r.value.1| < |s|
    decreases |s|, 2
  {
    var t := SkipWs(s);
    if t != [] && t[0] == '}' then Some((JObj([]), t[1..]))
    else
      match ParseMembers(s)
      case Some((ms, rest)) => Some((JObj(ms), rest))
      case None => None
  }

  /** `"name" : value (, "name" : value)* }`. */
  function ParseMembers(s: string): (r: Option<(seq<Member>, string)>)
    ensures r.Some? ==> |r.value.1| < |s|
    decreases |s|, 1
  {
    var t := SkipWs(s);
    if t == [] || t[0] != '"' then None
    else
      match ParseStringBody(t[1..])
      case None => None
      case Some((name, afterName)) =>
        var colon := SkipWs(afterName);
        if colon == [] || colon[0] != ':' then None
        else
          match ParseValue(colon[1..])
          case None => None
          case Some((v, rest)) =>
            var u := SkipWs(rest);
            if u == [] then None
            else if u[0] == '}' then Some(([Member(name, v)], u[1..]))
            else if u[0] == ',' then
              match ParseMembers(u[1..])
              case Some((ms, after)) => Some(([Member(name, v)] + ms, after))
              case None => None
            else None
  }

  /** `JSON.parse(text)`: one value and nothing but white space after it. */
  function Parse(text: string): (r: Option<Json>)
    ensures var t := SkipWs(text);
      t == [] || !(t[0] in "ntf\"[{-" || IsDigit(t[0])) ==> r.None?
  {
    match ParseValue(text)
    case Some((v, rest)) => if SkipWs(rest) == [] then Some(v) else None
    case None => None
  }

  // ================================================================ round trip

  /** What may follow a value inside serialised text. */
  predicate Delimited(rest: string) {
    rest == [] || rest[0] == ',' || rest[0] == ']' || rest[0] == '}'
  }

  lemma HexRoundTrip(d: nat)
    requires d < 16
    ensures HexValue(HexDigit(d)) == Some(d)
  {
  }

  lemma {:induction false} UnescapeEscaped(c: char, u: string)
    requires EscapeChar(c) != [c]
    ensures |EscapeChar(c)| >= 2 && EscapeChar(c)[0] == '\\'
    ensures Unescape(EscapeChar(c)[1..] + u) == Some((c, u))
  {
    var e := EscapeChar(c);
    if c < ' ' && c != '\U{0008}' && c != '\U{000C}' && c != '\n' && c != '\r' && c != '\t' {
      var code := c as int;
      var hi, lo := code / 16, code % 16;
      HexRoundTrip(hi);
      HexRoundTrip(lo);
      var v := e[1..] + u;
      assert v[0] == 'u';
      assert v[1..5] == ['0', '0', HexDigit(hi), HexDigit(lo)];
      assert Hex4(v[1..5]) == Some(code);
      assert v[5..] == u;
    } else {
      assert (e[1..] + u)[1..] == u;
    }
  }

  lemma {:induction false} StringRoundTrip(s: string, rest: string)
    ensures ParseStringBody(Escape(s) + "\"" + rest) == Some((s, rest))
  {
    if s == [] {
      assert Escape(s) + "\"" + rest == "\"" + rest;
    } else {
      var c := s[0];
      var tail := Escape(s[1..]) + "\"" + rest;
      StringRoundTrip(s[1..], rest);
      var e := EscapeChar(c);
      assert Escape(s) == e + Escape(s[1..]);
      ConcatAssoc(e, Escape(s[1..]), "\"");
      ConcatAssoc(e, Escape(s[1..]) + "\"", rest);
      assert Escape(s) + "\"" + rest == e + tail;
      CharStep(c, tail, s[1..], rest);
      assert [c] + s[1..] == s;
    }
  }

  /** One escaped character in front of the rest of a string body. */
  lemma CharStep(c: char, tail: string, body: string, rest: string)
    requires ParseStringBody(tail) == Some((body, rest))
    ensures ParseStringBody(EscapeChar(c) + tail) == Some(([c] + body, rest))
  {
    var e := EscapeChar(c);
    if e == [c] {
      assert c != '"' && c != '\\' && !(c < ' ');
      assert (e + tail)[1..] == tail;
    } else {
      UnescapeEscaped(c, tail);
      assert (e + tail)[1..] == e[1..] + tail;
    }
  }

  lemma {:induction false} DigitRunOfDecimal(n: nat, rest: string)
    requires rest == [] || !IsDigit(rest[0])
    ensures DigitRun(NatToDecimal(n) + rest) == |NatToDecimal(n)|
  {
    var d := NatToDecimal(n);
    DigitRunAll(d, rest);
  }

  lemma {:induction false} DigitRunAll(d: string, rest: string)
    requires AllDigits(d)
    requires rest == [] || !IsDigit(rest[0])
    ensures DigitRun(d + rest) == |d|
    decreases |d|
  {
    if d == [] {
      assert d + rest == rest;
    } else {
      assert (d + rest)[1..] == d[1..] + rest;
      DigitRunAll(d[1..], rest);
    }
  }

  lemma NatRoundTrip(n: nat, rest: string)
    requires Delimited(rest)
    ensures ParseNat(NatToDecimal(n) + rest) == Some((n, rest))
  {
    var d := NatToDecimal(n);
    var s := d + rest;
    DigitRunOfDecimal(n, rest);
    assert s[..|d|] == d;
    assert s[|d|..] == rest;
    DecimalRoundTrip(n);
  }

  lemma NumberRoundTrip(n: int, rest: string)
    requires Delimited(rest)
    ensures ParseNumber(IntToDecimal(n) + rest) == Some((JNum(n), rest))
  {
    var s := IntToDecimal(n) + rest;
    if n < 0 {
      var m: nat := -n;
      assert IntToDecimal(n) == "-" + NatToDecimal(m);
      assert s == "-" + (NatToDecimal(m) + rest);
      assert s[1..] == NatToDecimal(m) + rest;
      NatRoundTrip(m, rest);
      assert ParseNat(s[1..]) == Some((m, rest));
      assert -(m as int) == n;
    } else {
      assert IntToDecimal(n) == NatToDecimal(n);
      assert s == NatToDecimal(n) + rest;
      assert IsDigit(s[0]);
      NatRoundTrip(n, rest);
    }
  }

  lemma {:induction false} ValueRoundTrip(j: Json, rest: string)
    requires Delimited(rest)
    ensures ParseValue(Serialise(j) + rest) == Some((j, rest))
    decreases j, 0
  {
    match j
    case JNull => LiteralRoundTrip(j, "null", rest);
    case JBool(b) => LiteralRoundTrip(j, if b then "true" else "false", rest);
    case JNum(n) => NumberValueRoundTrip(n, rest);
    case JStr(str) => StringValueRoundTrip(str, rest);
    case JArr(items) => ArrayValueRoundTrip(items, rest);
    case JObj(members) => ObjectValueRoundTrip(members, rest);
  }

  lemma LiteralRoundTrip(j: Json, word: string, rest: string)
    requires j == JNull || j == JBool(true) || j == JBool(false)
    requires word == Serialise(j)
    ensures ParseValue(word + rest) == Some((j, rest))
  {
    var s := word + rest;
    assert s[0] == word[0];
    assert SkipWs(s) == s;
    assert s[|word|..] == rest;
    assert StartsWith(s, word);
  }

  lemma NumberValueRoundTrip(n: int, rest: string)
    requires Delimited(rest)
    ensures ParseValue(IntToDecimal(n) + rest) == Some((JNum(n), rest))
  {
    var s := IntToDecimal(n) + rest;
    assert s[0] == IntToDecimal(n)[0];
    assert SkipWs(s) == s;
    NumberRoundTrip(n, rest);
  }

  lemma {:induction false} ArrayValueRoundTrip(items: seq<Json>, rest: string)
    requires Delimited(rest)
    ensures ParseValue("[" + SerialiseItems(items) + "]" + rest) == Some((JArr(items), rest))
    decreases items, 3
  {
    var s := "[" + SerialiseItems(items) + "]" + rest;
    assert s[1..] == SerialiseItems(items) + "]" + rest;
    ParseValueOpen(s);
    ArrayRoundTrip(items, rest);
  }

  lemma {:induction false} ObjectValueRoundTrip(members: seq<Member>, rest: string)
    requires Delimited(rest)
    ensures ParseValue("{" + SerialiseMembers(members) + "}" + rest) == Some((JObj(members), rest))
    decreases members, 3
  {
    var s := "{" + SerialiseMembers(members) + "}" + rest;
    assert s[1..] == SerialiseMembers(members) + "}" + rest;
    ParseValueOpen(s);
    ObjectRoundTrip(members, rest);
  }

  /** How `ParseValue` continues on text that starts with a bracket or a brace. */
  lemma ParseValueOpen(s: string)
    requires s != [] && (s[0] == '[' || s[0] == '{')
    ensures s[0] == '[' ==> ParseValue(s) == ParseArray(s[1..])
    ensures s[0] == '{' ==> ParseValue(s) == ParseObject(s[1..])
  {
    assert SkipWs(s) == s;
  }

  lemma StringValueRoundTrip(str: string, rest: string)
    ensures ParseValue(Quote(str) + rest) == Some((JStr(str), rest))
  {
    var s := Quote(str) + rest;
    assert s[0] == '"';
    assert SkipWs(s) == s;
    assert s[1..] == Escape(str) + "\"" + rest;
    StringRoundTrip(str, rest);
  }

  lemma {:induction false} ArrayRoundTrip(items: seq<Json>, rest: string)
    requires Delimited(rest)
    ensures ParseArray(SerialiseItems(items) + "]" + rest) == Some((JArr(items), rest))
    decreases items, 2
  {
    var s := SerialiseItems(items) + "]" + rest;
    if items == [] {
      assert s == "]" + rest;
      assert SkipWs(s) == s;
      assert s[1..] == rest;
    } else {
      ItemsRoundTrip(items, rest);
      assert s[0] == Serialise(items[0])[0];
      assert SkipWs(s) == s;
    }
  }

  lemma {:induction false} ObjectRoundTrip(members: seq<Member>, rest: string)
    requires Delimited(rest)
    ensures ParseObject(SerialiseMembers(members) + "}" + rest) == Some((JObj(members), rest))
    decreases members, 2
  {
    var s := SerialiseMembers(members) + "}" + rest;
    if members == [] {
      assert s == "}" + rest;
      assert SkipWs(s) == s;
      assert s[1..] == rest;
    } else {
      MembersRoundTrip(members, rest);
      assert s[0] == '"';
      assert SkipWs(s) == s;
    }
  }

  lemma {:induction false} ItemsRoundTrip(items: seq<Json>, rest: string)
    requires items != [] && Delimited(rest)
    ensures ParseElements(SerialiseItems(items) + "]" + rest) == Some((items, rest))
    decreases items, 1
  {
    var head := Serialise(items[0]);
    if |items| == 1 {
      var after := "]" + rest;
      ConcatAssoc(head, "]", rest);
      assert SerialiseItems(items) + "]" + rest == head + after;
      ValueRoundTrip(items[0], after);
      assert SkipWs(after) == after;
      assert after[1..] == rest;
      assert [items[0]] == items;
    } else {
      var more := SerialiseItems(items[1..]);
      var tail := more + "]" + rest;
      var after := "," + tail;
      assert SerialiseItems(items) == head + "," + more;
      ConcatAssoc(head + ",", more, "]");
      ConcatAssoc(head + ",", more + "]", rest);
      ConcatAssoc(head, ",", tail);
      assert SerialiseItems(items) + "]" + rest == head + after;
      ValueRoundTrip(items[0], after);
      assert SkipWs(after) == after;
      ItemsRoundTrip(items[1..], rest);
      assert after[1..] == tail;
      assert [items[0]] + items[1..] == items;
    }
  }

  /** `SerialiseMembers` unfolded once. */
  lemma MembersUnfold(members: seq<Member>)
    requires members != []
    ensures SerialiseMembers(members)
         == Quote(members[0].name) + ":" + Serialise(members[0].value)
            + (if |members| == 1 then [] else "," + SerialiseMembers(members[1..]))
  {
    if |members| == 1 {
      var first := Quote(members[0].name) + ":" + Serialise(members[0].value);
      assert first + [] == first;
    }
  }

  /** Regrouping the text of one member followed by `after`. */
  lemma MemberRegroup(name: string, value: string, more: string, close: string, after: string)
    requires after == more + close
    ensures ("\"" + name + "\"") + ":" + value + more + close
         == "\"" + (name + "\"" + (":" + (value + after)))
  {
  }

  /** The serialised text of `members` followed by `}` and `rest`, split after the first member. */
  lemma {:induction false} MembersText(members: seq<Member>, rest: string, after: string)
    requires members != []
    requires after == if |members| == 1 then "}" + rest else "," + SerialiseMembers(members[1..]) + "}" + rest
    ensures SerialiseMembers(members) + "}" + rest
         == "\"" + (Escape(members[0].name) + "\"" + (":" + (Serialise(members[0].value) + after)))
  {
    var m := members[0];
    var more: string := if |members| == 1 then [] else "," + SerialiseMembers(members[1..]);
    MembersUnfold(members);
    assert SerialiseMembers(members) == Quote(m.name) + ":" + Serialise(m.value) + more;
    MemberRegroup(Escape(m.name), Serialise(m.value), more, "}" + rest, after);
  }

  /** One member and what follows it. */
  lemma {:induction false} MemberStep(m: Member, after: string)
    requires after != [] && (after[0] == '}' || after[0] == ',')
    ensures var s := "\"" + (Escape(m.name) + "\"" + (":" + (Serialise(m.value) + after)));
      && SkipWs(s) == s && s[0] == '"'
      && ParseStringBody(s[1..]) == Some((m.name, ":" + (Serialise(m.value) + after)))
      && ParseValue(Serialise(m.value) + after) == Some((m.value, after))
      && SkipWs(after) == after
    decreases m, 0
  {
    var valueText := Serialise(m.value) + after;
    var s := "\"" + (Escape(m.name) + "\"" + (":" + valueText));
    assert s[1..] == Escape(m.name) + "\"" + (":" + valueText);
    StringRoundTrip(m.name, ":" + valueText);
    ValueRoundTrip(m.value, after);
  }

  function PrependMember(m: Member, r: Option<(seq<Member>, string)>): Option<(seq<Member>, string)> {
    match r
    case Some((ms, rest)) => Some(([m] + ms, rest))
    case None => None
  }

  /** How `ParseMembers` continues once a name and a value have been read. */
  lemma ParseMembersUnfold(s: string, name: string, valueText: string, v: Json, after: string)
    requires SkipWs(s) == s && s != [] && s[0] == '"'
    requires ParseStringBody(s[1..]) == Some((name, ":" + valueText))
    requires ParseValue(valueText) == Some((v, after))
    requires SkipWs(after) == after && after != []
    ensures after[0] == '}' ==> ParseMembers(s) == Some(([Member(name, v)], after[1..]))
    ensures after[0] == ',' ==> ParseMembers(s) == PrependMember(Member(name, v), ParseMembers(after[1..]))
  {
    assert SkipWs(":" + valueText) == ":" + valueText;
    assert (":" + valueText)[1..] == valueText;
  }

  /** Parsing the text of one member `m` followed by `after`. */
  lemma MemberHead(m: Member, after: string, s: string)
    requires after != [] && (after[0] == '}' || after[0] == ',')
    requires s == "\"" + (Escape(m.name) + "\"" + (":" + (Serialise(m.value) + after)))
    ensures after[0] == '}' ==> ParseMembers(s) == Some(([m], after[1..]))
    ensures after[0] == ',' ==> ParseMembers(s) == PrependMember(m, ParseMembers(after[1..]))
    decreases m, 1
  {
    MemberStep(m, after);
    ParseMembersUnfold(s, m.name, Serialise(m.value) + after, m.value, after);
  }

  lemma {:induction false} MembersRoundTrip(members: seq<Member>, rest: string)
    requires members != [] && Delimited(rest)
    ensures ParseMembers(SerialiseMembers(members) + "}" + rest) == Some((members, rest))
    decreases members, 1
  {
    if |members| == 1 {
      LastMemberRoundTrip(members, rest);
    } else {
      FirstMemberRoundTrip(members, rest);
    }
  }

  lemma {:induction false} LastMemberRoundTrip(members: seq<Member>, rest: string)
    requires |members| == 1 && Delimited(rest)
    ensures ParseMembers(SerialiseMembers(members) + "}" + rest) == Some((members, rest))
    decreases members, 0
  {
    var after := "}" + rest;
    MembersText(members, rest, after);
    MemberHead(members[0], after, SerialiseMembers(members) + "}" + rest);
    assert after[1..] == rest;
    assert [members[0]] == members;
  }

  lemma {:induction false} FirstMemberRoundTrip(members: seq<Member>, rest: string)
    requires |members| > 1 && Delimited(rest)
    ensures ParseMembers(SerialiseMembers(members) + "}" + rest) == Some((members, rest))
    decreases members, 0
  {
    var tail := SerialiseMembers(members[1..]) + "}" + rest;
    var after := "," + tail;
    var text := SerialiseMembers(members) + "}" + rest;
    ConcatAssoc(",", SerialiseMembers(members[1..]), "}");
    ConcatAssoc(",", SerialiseMembers(members[1..]) + "}", rest);
    MembersText(members, rest, after);
    MemberHead(members[0], after, text);
    assert after[1..] == tail;
    MembersRoundTrip(members[1..], rest);
    ConsParsed(ParseMembers(text), ParseMembers(tail), members, rest);
  }

  /** The first member put in front of the members parsed after it gives them all. */
  lemma ConsParsed(whole: Option<(seq<Member>, string)>, tail: Option<(seq<Member>, string)>, members: seq<Member>, rest: string)
    requires |members| > 1
    requires whole == PrependMember(members[0], tail)
    requires tail == Some((members[1..], rest))
    ensures whole == Some((members, rest))
  {
    assert [members[0]] + members[1..] == members;
  }

  /** `JSON.parse(JSON.stringify(v))` gives back `v`. */
  lemma ParseSerialise(j: Json)
    ensures Parse(Serialise(j)) == Some(j)
  {
    ValueRoundTrip(j, []);
    assert Serialise(j) + [] == Serialise(j);
  }

  // ================================================================ property reads

  /** A property read: `Undefined` when the property is missing. */
  datatype Prop = Undefined | Defined(value: Json)

  /** The value of the last member called `name`, as `JSON.parse` keeps the last duplicate. */
  function LastMember(members: seq<Member>, name: string): (r: Option<Json>)
    ensures r.Some? <==> exists i :: 0 <= i < |members| && members[i].name == name
  {
    if members == [] then None
    else if members[|members| - 1].name == name then Some(members[|members| - 1].value)
    else LastMember(members[..|members| - 1], name)
  }

  /** A found value is that of the last member with the name: a later
      duplicate overrides an earlier one. */
  lemma {:induction false} LastMemberIsLast(members: seq<Member>, name: string)
    ensures var r := LastMember(members, name);
      r.Some? ==> exists i :: LastNamed(members, name, i) && members[i].value == r.value
  {
    if members != [] {
      var n := |members| - 1;
      if members[n].name == name {
        assert LastNamed(members, name, n);
      } else {
        var prefix := members[..n];
        LastMemberIsLast(prefix, name);
        if LastMember(prefix, name).Some? {
          var i :| LastNamed(prefix, name, i) && prefix[i].value == LastMember(prefix, name).value;
          LastNamedExtends(members, name, i);
        }
      }
    }
  }

  /** A member that is the last with its name stays so when a member with
      another name is appended. */
  lemma LastNamedExtends(members: seq<Member>, name: string, i: int)
    requires members != [] && members[|members| - 1].name != name
    requires LastNamed(members[..|members| - 1], name, i)
    ensures LastNamed(members, name, i) && members[i] == members[..|members| - 1][i]
  {
  }

  /** Member `i` is called `name`, and no later member is. */
  predicate LastNamed(members: seq<Member>, name: string, i: int) {
    && 0 <= i < |members| && members[i].name == name
    && forall k :: i < k < |members| ==> members[k].name != name
  }

  /** `v[name]` (also `const { name } = v`): None is the TypeError on `null`; any
      other non-object value has none of the record fields used here. */
  function GetProp(v: Json, name: string): (r: Option<Prop>)
    ensures r.None? <==> v.JNull?
    ensures v.JObj? ==> r == Some(if LastMember(v.members, name).Some? then Defined(LastMember(v.members, name).value) else Undefined)
    ensures !v.JObj? && !v.JNull? ==> r == Some(Undefined)
  {
    match v
    case JNull => None
    case JObj(members) =>
      Some(match LastMember(members, name) case Some(x) => Defined(x) case None => Undefined)
    case _ => Some(Undefined)
  }

  /** The numeric conversion JavaScript applies to a property in `a - b` and
      `Math.floor(a)`. */
  function ToNumber(p: Prop): (r: Number)
    ensures p.Defined? && p.value.JNum? ==> r == Finite(p.value.n)
    ensures p.Defined? && p.value.JStr? ==> r == StringToNumber(p.value.s)
    ensures r.Finite? ==> p.Defined? && !p.value.JObj? && (p.value.JArr? ==> |p.value.items| <= 1)
  {
    match p
    case Undefined => NaN
    case Defined(JNull) => Finite(0)
    case Defined(JBool(b)) => Finite(if b then 1 else 0)
    case Defined(JNum(n)) => Finite(n)
    case Defined(JStr(s)) => StringToNumber(s)
    case Defined(JArr(items)) => ArrayToNumber(items)
    case Defined(JObj(_)) => NaN
  }

  /** An array is converted through its string form, the elements joined by
      commas: two or more elements always leave a comma, so only the empty
      array and one-element arrays can be numbers. */
  function ArrayToNumber(items: seq<Json>): (r: Number)
    ensures r.Finite? ==> |items| <= 1
    ensures items == [] ==> r == Finite(0)
    ensures |items| == 1 && items[0].JNum? ==> r == Finite(items[0].n)
    decreases items
  {
    if |items| == 0 then Finite(0)
    else if |items| > 1 then NaN
    else
      match items[0]
      case JNull => Finite(0)
      case JBool(_) => NaN
      case JNum(n) => Finite(n)
      case JStr(s) => StringToNumber(s)
      case JArr(inner) => ArrayToNumber(inner)
      case JObj(_) => NaN
  }

  /** `p != 0` with JavaScript's loose inequality: undefined and null are unequal
      to 0, other values are compared as numbers. */
  predicate LooseNotZero(p: Prop): (r: bool)
    ensures p.Undefined? || p == Defined(JNull) ==> r
    ensures p.Defined? && p.value.JNum? ==> (r <==> p.value.n != 0)
    ensures p.Defined? && p.value.JStr? ==> (r <==> StringToNumber(p.value.s) != Finite(0))
    ensures p.Defined? && p.value.JArr? && |p.value.items| >= 2 ==> r
  {
    match p
    case Undefined => true
    case Defined(JNull) => true
    case Defined(_) => ToNumber(p) != Finite(0)
  }
}
