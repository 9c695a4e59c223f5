/** JSON text: the compact printer and a reader of the grammar Python's decoder accepts.

    The reader covers whitespace, literals, integers, fractional numbers (kept as
    their spelling), strings with every escape, arrays and objects. */
module JsonText {
  import opened Prelude

  datatype Json =
    | JNull
    | JBool(b: bool)
    | JInt(i: int)
    | JFloat(spelling: string)
    | JStr(s: string)
    | JArr(items: seq<Json>)
    | JObj(members: seq<(string, Json)>)

  // ----- printing -----

  const SHORT: map<int, char> := map[34 := '"', 92 := '\\', 8 := 'b', 9 := 't', 10 := 'n', 12 := 'f', 13 := 'r']

  function HexDigit(n: nat): char
    requires n < 16
  {
    if n < 10 then ('0' as int + n) as char else ('a' as int + n - 10) as char
  }

  /** Backslash, quote and control characters are escaped; everything else stands for itself. */
  function Escape(c: char): string {
    if c as int in SHORT then ['\\', SHORT[c as int]]
    else if c < ' ' then ['\\', 'u', '0', '0', HexDigit(c as int / 16), HexDigit(c as int % 16)]
    else [c]
  }

  function EscapeAll(s: string): string { if s == "" then "" else Escape(s[0]) + EscapeAll(s[1..]) }

  function Digits(n: nat): string {
    if n < 10 then [HexDigit(n)] else Digits(n / 10) + [HexDigit(n % 10)]
  }

  function PrintInt(i: int): string { if i < 0 then "-" + Digits(-i) else Digits(i) }

  /** Compact text, without whitespace.  Objects and fractions are never printed here. */
  predicate Printable(j: Json) {
    match j
    case JArr(items) => forall i :: 0 <= i < |items| ==> Printable(items[i])
    case JObj(_) => false
    case JFloat(_) => false
    case _ => true
  }

  function Print(j: Json): string
    requires Printable(j)
    decreases j, 1
  {
    match j
    case JNull => "null"
    case JBool(b) => if b then "true" else "false"
    case JInt(i) => PrintInt(i)
    case JStr(s) => "\"" + EscapeAll(s) + "\""
    case JArr(items) => if items == [] then "[]" else "[" + PrintItems(items)
  }

  /** Nonempty items and their closing bracket. */
  function PrintItems(items: seq<Json>): string
    requires items != [] && forall i :: 0 <= i < |items| ==> Printable(items[i])
    decreases items, 0
  {
    if |items| == 1 then Print(items[0]) + "]" else Print(items[0]) + "," + PrintItems(items[1..])
  }

  // ----- reading -----

  type Read<+T> = Option<(T, string)>

  predicate IsWs(c: char) { c == ' ' || c == '\t' || c == '\n' || c == '\r' }

  predicate IsDigit(c: char) { '0' <= c <= '9' }

  function SkipWs(t: string): (r: string)
    ensures |r| <= |t|
  {
    if t != "" && IsWs(t[0]) then SkipWs(t[1..]) else t
  }

  function HexValue(c: char): Option<nat> {
    if '0' <= c <= '9' then Some(c as int - '0' as int)
    else if 'a' <= c <= 'f' then Some(c as int - 'a' as int + 10)
    else if 'A' <= c <= 'F' then Some(c as int - 'A' as int + 10)
    else None
  }

  /** Four hexadecimal digits. */
  function ReadHex4(t: string): Option<nat>
  {
    if |t| < 4 || HexValue(t[0]).None? || HexValue(t[1]).None? || HexValue(t[2]).None? || HexValue(t[3]).None? then None
    else Some(((HexValue(t[0]).value * 16 + HexValue(t[1]).value) * 16 + HexValue(t[2]).value) * 16
        + HexValue(t[3]).value)
  }

  predicate IsScalar(code: nat) { code < 0xD800 || 0xE000 <= code < 0x11_0000 }

  /** One escape after its backslash: the character and the text after it.  A lone surrogate is refused. */
  function ReadEscape(t: string): (r: Read<char>)
    ensures r.Some? ==> |r.value.1| < |t|
  {
    if t == "" then None
    else if t[0] == '"' then Some(('"', t[1..]))
    else if t[0] == '\\' then Some(('\\', t[1..]))
    else if t[0] == '/' then Some(('/', t[1..]))
    else if t[0] == 'b' then Some((8 as char, t[1..]))
    else if t[0] == 't' then Some((9 as char, t[1..]))
    else if t[0] == 'n' then Some((10 as char, t[1..]))
    else if t[0] == 'f' then Some((12 as char, t[1..]))
    else if t[0] == 'r' then Some((13 as char, t[1..]))
    else if t[0] == 'u' then ReadUnicode(t[1..])
    else None
  }

  function ReadUnicode(t: string): (r: Read<char>)
    ensures r.Some? ==> |r.value.1| < |t|
  {
    match ReadHex4(t)
    case None => None
    case Some(code) =>
      if IsScalar(code) then Some((code as char, t[4..]))
      else if 0xD800 <= code < 0xDC00 && |t| >= 6 && t[4] == '\\' && t[5] == 'u' && ReadHex4(t[6..]).Some?
              && 0xDC00 <= ReadHex4(t[6..]).value < 0xE000
      then Some(((0x1_0000 + (code - 0xD800) * 0x400 + (ReadHex4(t[6..]).value - 0xDC00)) as char, t[10..]))
      else None
  }

  /** The rest of a string after its opening quote. */
  function ReadString(t: string): (r: Read<string>)
    ensures r.Some? ==> |r.value.1| < |t|
    decreases |t|
  {
    if t == "" || t[0] < ' ' then None
    else if t[0] == '"' then Some(("", t[1..]))
    else if t[0] == '\\' then
      match ReadEscape(t[1..])
      case None => None
      case Some((c, rest)) => Prepend(c, ReadString(rest))
    else Prepend(t[0], ReadString(t[1..]))
  }

  function Prepend(c: char, r: Read<string>): Read<string> {
    match r
    case None => None
    case Some((s, rest)) => Some(([c] + s, rest))
  }

  function TakeDigits(t: string): (n: nat)
    ensures n <= |t| && (forall i :: 0 <= i < n ==> IsDigit(t[i])) && (n < |t| ==> !IsDigit(t[n]))
  {
    if t != "" && IsDigit(t[0]) then 1 + TakeDigits(t[1..]) else 0
  }

  function Value(digits: string): nat
    requires forall i :: 0 <= i < |digits| ==> IsDigit(digits[i])
  {
    if digits == "" then 0
    else
      assert IsDigit(digits[|digits| - 1]);
      Value(digits[..|digits| - 1]) * 10 + (digits[|digits| - 1] as int - '0' as int)
  }

  /** How much of the text an optional fraction takes: a point and at least one digit. */
  function FractionLength(t: string): (n: nat)
    ensures n <= |t|
  {
    if |t| >= 2 && t[0] == '.' && IsDigit(t[1]) then 1 + TakeDigits(t[1..]) else 0
  }

  /** How much an optional exponent takes. */
  function ExponentLength(t: string): (n: nat)
    ensures n <= |t|
  {
    if |t| >= 2 && (t[0] == 'e' || t[0] == 'E') && IsDigit(t[1]) then 1 + TakeDigits(t[1..])
    else if |t| >= 3 && (t[0] == 'e' || t[0] == 'E') && (t[1] == '+' || t[1] == '-') && IsDigit(t[2]) then
        2 + TakeDigits(t[2..])
    else 0
  }

  /** The integer part: a leading zero stands alone. */
  function IntLength(t: string): (n: nat)
    ensures n <= |t| && forall i :: 0 <= i < n ==> IsDigit(t[i])
  {
    if TakeDigits(t) > 0 && t[0] == '0' then 1 else TakeDigits(t)
  }

  function SuffixLength(t: string): (n: nat)
    ensures n <= |t|
  {
    FractionLength(t) + ExponentLength(t[FractionLength(t)..])
  }

  /** A number; with a fraction or an exponent it keeps its spelling. */
  function ReadUnsigned(t: string): (r: Read<Json>)
    ensures r.Some? ==> |r.value.1| < |t|
  {
    var n := IntLength(t);
    var m := SuffixLength(t[n..]);
    if n == 0 then None
    else if m == 0 then Some((JInt(Value(t[..n])), t[n..]))
    else Some((JFloat(t[..n + m]), t[n + m..]))
  }

  function ReadNumber(t: string): (r: Read<Json>)
    ensures r.Some? ==> |r.value.1| < |t|
  {
    if t != "" && t[0] == '-' then
      match ReadUnsigned(t[1..])
      case Some((JInt(i), rest)) => Some((JInt(-i), rest))
      case Some((JFloat(spelling), rest)) => Some((JFloat("-" + spelling), rest))
      case _ => None
    else ReadUnsigned(t)
  }

  function ReadLiteral(t: string): (r: Read<Json>)
    ensures r.Some? ==> |r.value.1| < |t|
  {
    if "null" <= t then Some((JNull, t[4..]))
    else if "true" <= t then Some((JBool(true), t[4..]))
    else if "false" <= t then Some((JBool(false), t[5..]))
    else if "NaN" <= t then Some((JFloat("NaN"), t[3..]))
    else if "Infinity" <= t then Some((JFloat("Infinity"), t[8..]))
    else if "-Infinity" <= t then Some((JFloat("-Infinity"), t[9..]))
    else None
  }

  function ReadValue(t: string): (r: Read<Json>)
    ensures r.Some? ==> |r.value.1| < |t|
    decreases |t|, 0
  {
    if t == "" then None
    else if t[0] == '"' then
      match ReadString(t[1..])
      case None => None
      case Some((s, rest)) => Some((JStr(s), rest))
    else if t[0] == '[' then
      var u := SkipWs(t[1..]);
      if u != "" && u[0] == ']' then Some((JArr([]), u[1..]))
      else match ReadItems(u)
           case None => None
           case Some((items, rest)) => Some((JArr(items), rest))
    else if t[0] == '{' then
      var u := SkipWs(t[1..]);
      if u != "" && u[0] == '}' then Some((JObj([]), u[1..]))
      else match ReadMembers(u)
           case None => None
           case Some((members, rest)) => Some((JObj(members), rest))
    else match ReadLiteral(t)
         case Some(found) => Some(found)
         case None => ReadNumber(t)
  }

  /** At least one item, up to and with the closing bracket. */
  function ReadItems(t: string): (r: Read<seq<Json>>)
    ensures r.Some? ==> |r.value.1| < |t|
    decreases |t|, 1
  {
    match ReadValue(t)
    case None => None
    case Some((item, after)) =>
      var u := SkipWs(after);
      if u == "" then None
      else if u[0] == ']' then Some(([item], u[1..]))
      else if u[0] == ',' then
        match ReadItems(SkipWs(u[1..]))
        case None => None
        case Some((items, rest)) => Some(([item] + items, rest))
      else None
  }

  /** One member: a key, a colon, a value. */
  function ReadMember(t: string): (r: Read<(string, Json)>)
    ensures r.Some? ==> |r.value.1| < |t|
    decreases |t|, 0
  {
    if t == "" || t[0] != '"' then None
    else match ReadString(t[1..])
    case None => None
    case Some((key, afterKey)) =>
      var colon := SkipWs(afterKey);
      if colon == "" || colon[0] != ':' then None
      else match ReadValue(SkipWs(colon[1..]))
      case None => None
      case Some((value, after)) => Some(((key, value), after))
  }

  /** At least one member, up to and with the closing brace. */
  function ReadMembers(t: string): (r: Read<seq<(string, Json)>>)
    ensures r.Some? ==> |r.value.1| < |t|
    decreases |t|, 1
  {
    match ReadMember(t)
    case None => None
    case Some((member, after)) =>
      var u := SkipWs(after);
      if u == "" then None
      else if u[0] == '}' then Some(([member], u[1..]))
      else if u[0] == ',' then
        match ReadMembers(SkipWs(u[1..]))
        case None => None
        case Some((members, rest)) => Some(([member] + members, rest))
      else None
  }

  /** `json.loads`: one value, whitespace around it, nothing else. */
  function Loads(t: string): Option<Json> {
    match ReadValue(SkipWs(t))
    case None => None
    case Some((value, rest)) => if SkipWs(rest) == "" then Some(value) else None
  }

  // ----- reading back what was printed -----

  /** Text after a number that cannot continue it. */
  predicate Ends(rest: string) { rest == "" || (!IsDigit(rest[0]) && rest[0] !in ".eE") }

  lemma {:induction false} DigitsRead(n: nat)
    ensures var d := Digits(n);
        d != "" && (forall i :: 0 <= i < |d| ==> IsDigit(d[i])) && Value(d) == n && (d[0] == '0' ==> n == 0 && d == "0")
    decreases n
  {
    if n < 10 {
      var d := Digits(n);
      assert d[..0] == "";
    } else {
      DigitsRead(n / 10);
      var head, last := Digits(n / 10), HexDigit(n % 10);
      assert Digits(n) == head + [last] && (head + [last])[..|head|] == head;
    }
  }

  lemma {:induction false} TakesAll(d: string, rest: string)
    requires (forall i :: 0 <= i < |d| ==> IsDigit(d[i])) && Ends(rest)
    ensures TakeDigits(d + rest) == |d|
    decreases |d|
  {
    if d == "" {
      assert d + rest == rest;
    } else {
      assert (d + rest)[0] == d[0] && (d + rest)[1..] == d[1..] + rest;
      TakesAll(d[1..], rest);
    }
  }

  lemma UnsignedReadsBack(n: nat, rest: string)
    requires Ends(rest)
    ensures ReadUnsigned(Digits(n) + rest) == Some((JInt(n), rest))
  {
    var d := Digits(n);
    DigitsRead(n);
    TakesAll(d, rest);
    var t := d + rest;
    assert t[0] == d[0] && t[..|d|] == d && t[|d|..] == rest;
    assert FractionLength(rest) == 0 && rest[0..] == rest && ExponentLength(rest) == 0;
  }

  lemma IntReadsBack(i: int, rest: string)
    requires Ends(rest)
    ensures ReadNumber(PrintInt(i) + rest) == Some((JInt(i), rest))
    ensures PrintInt(i) != "" &&
        (IsDigit(PrintInt(i)[0]) || (PrintInt(i)[0] == '-' && |PrintInt(i)| > 1 && IsDigit(PrintInt(i)[1])))
  {
    var n: nat := if i < 0 then -i else i;
    DigitsRead(n);
    UnsignedReadsBack(n, rest);
    SpelledReads(Digits(n), n, rest);
  }

  /** Digits that read as a number read as its negation behind a minus. */
  lemma SpelledReads(d: string, n: nat, rest: string)
    requires d != "" && IsDigit(d[0]) && ReadUnsigned(d + rest) == Some((JInt(n), rest))
    ensures ReadNumber(d + rest) == Some((JInt(n), rest)) &&
        ReadNumber("-" + d + rest) == Some((JInt(-(n as int)), rest))
    ensures ("-" + d)[0] == '-' && ("-" + d)[1] == d[0]
  {
    SignedReads(d + rest, n, rest);
    Associates("-", d, rest);
    assert (d + rest)[0] == d[0];
  }

  lemma SignedReads(t: string, n: nat, rest: string)
    requires ReadUnsigned(t) == Some((JInt(n), rest))
    ensures t != "" && IsDigit(t[0]) && ReadNumber(t) == Some((JInt(n), rest))
    ensures ReadNumber("-" + t) == Some((JInt(-(n as int)), rest))
  {
    assert t != "" && IsDigit(t[0]);
    assert ("-" + t)[1..] == t;
  }

  lemma HexReadsBack(n: nat)
    requires n < 16
    ensures HexValue(HexDigit(n)) == Some(n)
  {
  }

  lemma EscapeReadsBack(c: char, rest: string)
    ensures ReadString(Escape(c) + rest) == Prepend(c, ReadString(rest))
  {
    var code := c as int;
    if code in SHORT {
      var t := ['\\', SHORT[code]] + rest;
      assert Escape(c) + rest == t && t[1..] == [SHORT[code]] + rest && t[1..][1..] == rest;
    } else if c < ' ' {
      var h, l := HexDigit(code / 16), HexDigit(code % 16);
      HexReadsBack(code / 16);
      HexReadsBack(code % 16);
      HexReadsBack(0);
      var t := Escape(c) + rest;
      var u := t[1..][1..];
      assert u == ['0', '0', h, l] + rest;
      assert u[4..] == rest && ReadHex4(u) == Some(code);
      assert ReadEscape(t[1..]) == Some((c, rest));
    } else {
      var t := [c] + rest;
      assert Escape(c) + rest == t && t[1..] == rest;
    }
  }

  lemma {:induction false} StringReadsBack(s: string, rest: string)
    ensures ReadString(EscapeAll(s) + "\"" + rest) == Some((s, rest))
    decreases |s|
  {
    if s == "" {
      assert EscapeAll(s) + "\"" + rest == "\"" + rest && ("\"" + rest)[1..] == rest;
    } else {
      var more := EscapeAll(s[1..]);
      var tail := more + "\"" + rest;
      Associates(Escape(s[0]), more, "\"");
      Associates(Escape(s[0]), more + "\"", rest);
      EscapeReadsBack(s[0], tail);
      StringReadsBack(s[1..], rest);
      assert [s[0]] + s[1..] == s;
    }
  }

  /** No printed value starts with whitespace or a closing bracket. */
  lemma PrintStarts(j: Json)
    requires Printable(j)
    ensures Print(j) != "" && !IsWs(Print(j)[0]) && Print(j)[0] != ']'
  {
    if j.JInt? { IntReadsBack(j.i, ""); }
  }

  lemma LiteralReadsBack(j: Json, rest: string)
    requires j.JNull? || j.JBool?
    ensures ReadValue(Print(j) + rest) == Some((j, rest))
  {
    var t := Print(j) + rest;
    if j.JNull? { assert "null" <= t && t[4..] == rest; }
    else if j.b { assert "true" <= t && t[4..] == rest && t[0] == 't'; }
    else { assert "false" <= t && t[5..] == rest && t[0] == 'f'; }
  }

  lemma IntValueReadsBack(i: int, rest: string)
    requires Ends(rest)
    ensures ReadValue(PrintInt(i) + rest) == Some((JInt(i), rest))
  {
    var t := PrintInt(i) + rest;
    IntReadsBack(i, rest);
    assert t[0] == PrintInt(i)[0] && (t[0] == '-' ==> t[1] == PrintInt(i)[1]);
    NotLiteral(t);
  }

  lemma StrReadsBack(s: string, rest: string)
    ensures ReadValue(Print(JStr(s)) + rest) == Some((JStr(s), rest))
  {
    var t := Print(JStr(s)) + rest;
    StringReadsBack(s, rest);
    assert t[0] == '"' && t[1..] == EscapeAll(s) + "\"" + rest;
  }

  lemma EmptyReadsBack(rest: string)
    ensures ReadValue("[]" + rest) == Some((JArr([]), rest))
  {
    var t := "[]" + rest;
    assert t[0] == '[' && t[1..] == "]" + rest && ("]" + rest)[1..] == rest;
  }

  lemma ArrReadsBack(items: seq<Json>, rest: string, body: string)
    requires items != [] && ReadItems(body) == Some((items, rest)) && SkipWs(body) == body && body != "" &&
        body[0] != ']'
    ensures ReadValue("[" + body) == Some((JArr(items), rest))
  {
    var t := "[" + body;
    assert t[0] == '[' && t[1..] == body;
  }

  /** The reader undoes the printer, whatever follows that cannot continue a number. */
  lemma {:induction false} ReadsBack(j: Json, rest: string)
    requires Printable(j) && Ends(rest)
    ensures ReadValue(Print(j) + rest) == Some((j, rest))
    decreases j, 1
  {
    match j {
      case JNull => LiteralReadsBack(j, rest);
      case JBool(_) => LiteralReadsBack(j, rest);
      case JInt(i) => IntValueReadsBack(i, rest);
      case JStr(s) => StrReadsBack(s, rest);
      case JArr(items) =>
        if items == [] {
          EmptyReadsBack(rest);
        } else {
          ItemsReadBack(items, rest);
          ArrPrinted(items, rest);
        }
    }
  }

  lemma ArrPrinted(items: seq<Json>, rest: string)
    requires items != [] && Printable(JArr(items)) && ReadItems(PrintItems(items) + rest) == Some((items, rest))
    ensures ReadValue(Print(JArr(items)) + rest) == Some((JArr(items), rest))
  {
    ItemsStart(items, rest);
    ArrReadsBack(items, rest, PrintItems(items) + rest);
    Associates("[", PrintItems(items), rest);
  }

  lemma NotLiteral(t: string)
    requires t != "" && (IsDigit(t[0]) || (t[0] == '-' && |t| > 1 && IsDigit(t[1])))
    ensures ReadLiteral(t).None?
  {
    assert "null"[0] == 'n' && "true"[0] == 't' && "false"[0] == 'f' && "NaN"[0] == 'N' && "Infinity"[0] == 'I';
    assert "-Infinity"[1] == 'I';
  }

  lemma ItemsStart(items: seq<Json>, rest: string)
    requires items != [] && forall i :: 0 <= i < |items| ==> Printable(items[i])
    ensures var t := PrintItems(items) + rest; SkipWs(t) == t && t != "" && t[0] != ']'
  {
    PrintStarts(items[0]);
    assert PrintItems(items)[0] == Print(items[0])[0];
  }

  lemma {:induction false} ItemsReadBack(items: seq<Json>, rest: string)
    requires items != [] && (forall i :: 0 <= i < |items| ==> Printable(items[i])) && Ends(rest)
    ensures ReadItems(PrintItems(items) + rest) == Some((items, rest))
    decreases items, 0
  {
    if |items| == 1 {
      var after := "]" + rest;
      assert PrintItems(items) + rest == Print(items[0]) + after && after[1..] == rest && items == [items[0]];
      ReadsBack(items[0], after);
      LastItem(Print(items[0]) + after, items[0], after);
    } else {
      var tail := PrintItems(items[1..]) + rest;
      var after := "," + tail;
      assert PrintItems(items) + rest == Print(items[0]) + after && after[1..] == tail &&
          items == [items[0]] + items[1..];
      ReadsBack(items[0], after);
      ItemsReadBack(items[1..], rest);
      ItemsStart(items[1..], rest);
      OneMoreItem(Print(items[0]) + after, items[0], after, items[1..], rest);
    }
  }

  lemma LastItem(t: string, item: Json, after: string)
    requires ReadValue(t) == Some((item, after)) && after != "" && after[0] == ']'
    ensures ReadItems(t) == Some(([item], after[1..]))
  {
  }

  lemma OneMoreItem(t: string, item: Json, after: string, items: seq<Json>, rest: string)
    requires ReadValue(t) == Some((item, after)) && after != "" && after[0] == ','
    requires SkipWs(after[1..]) == after[1..] && ReadItems(after[1..]) == Some((items, rest))
    ensures ReadItems(t) == Some(([item] + items, rest))
  {
  }

  lemma LoadsPrinted(j: Json)
    requires Printable(j)
    ensures Loads(Print(j)) == Some(j)
  {
    PrintStarts(j);
    assert Print(j) + "" == Print(j);
    ReadsBack(j, "");
  }

  // ----- what was read stays read when text follows -----

  lemma {:induction false} SkipWsStable(t: string, q: string)
    requires SkipWs(t) != ""
    ensures SkipWs(t + q) == SkipWs(t) + q
    decreases |t|
  {
    assert (t + q)[0] == t[0] && (t + q)[1..] == t[1..] + q;
    if IsWs(t[0]) { SkipWsStable(t[1..], q); }
  }

  lemma Hex4Stable(t: string, q: string)
    requires |t| >= 4
    ensures ReadHex4(t + q) == ReadHex4(t)
  {
    assert (t + q)[..4] == t[..4];
    assert (t + q)[0] == t[0] && (t + q)[1] == t[1] && (t + q)[2] == t[2] && (t + q)[3] == t[3];
  }

  lemma UnicodeStable(t: string, q: string)
    requires ReadUnicode(t).Some?
    ensures ReadUnicode(t + q) == Some((ReadUnicode(t).value.0, ReadUnicode(t).value.1 + q))
  {
    Hex4Stable(t, q);
    assert (t + q)[4..] == t[4..] + q;
    if !IsScalar(ReadHex4(t).value) {
      assert (t + q)[6..] == t[6..] + q && (t + q)[10..] == t[10..] + q;
      Hex4Stable(t[6..], q);
    }
  }

  lemma EscapeStable(t: string, q: string)
    requires ReadEscape(t).Some?
    ensures ReadEscape(t + q) == Some((ReadEscape(t).value.0, ReadEscape(t).value.1 + q))
  {
    assert (t + q)[0] == t[0] && (t + q)[1..] == t[1..] + q;
    if t[0] == 'u' { UnicodeStable(t[1..], q); }
  }

  lemma {:induction false} StringStable(t: string, q: string)
    requires ReadString(t).Some?
    ensures ReadString(t + q) == Some((ReadString(t).value.0, ReadString(t).value.1 + q))
    decreases |t|
  {
    assert (t + q)[0] == t[0] && (t + q)[1..] == t[1..] + q;
    if t[0] == '"' {
    } else if t[0] == '\\' {
      EscapeStable(t[1..], q);
      StringStable(ReadEscape(t[1..]).value.1, q);
    } else {
      StringStable(t[1..], q);
    }
  }

  lemma {:induction false} TakeDigitsStable(t: string, q: string)
    requires TakeDigits(t) < |t|
    ensures TakeDigits(t + q) == TakeDigits(t)
    decreases |t|
  {
    assert (t + q)[0] == t[0] && (t + q)[1..] == t[1..] + q;
    if IsDigit(t[0]) { TakeDigitsStable(t[1..], q); }
  }

  /** Text after a value that nothing can lengthen. */
  predicate Settled(v: Json, rest: string) {
    (v.JInt? || v.JFloat?) ==> rest != "" && rest[0] !in ".eE+-0123456789"
  }

  lemma FractionStable(rest: string, q: string)
    requires rest != "" && FractionLength(rest) < |rest| && (rest[FractionLength(rest)] != '.')
    requires FractionLength(rest) == 0 ==> rest[0] != '.'
    ensures FractionLength(rest + q) == FractionLength(rest)
  {
    assert (rest + q)[0] == rest[0];
    if FractionLength(rest) > 0 {
      assert (rest + q)[1..] == rest[1..] + q && (rest + q)[1] == rest[1];
      TakeDigitsStable(rest[1..], q);
    }
  }

  lemma ExponentStable(rest: string, q: string)
    requires ExponentLength(rest) < |rest| && (ExponentLength(rest) == 0 ==> rest[0] !in "eE")
    ensures ExponentLength(rest + q) == ExponentLength(rest)
  {
    assert (rest + q)[0] == rest[0];
    if ExponentLength(rest) > 0 {
      assert (rest + q)[1] == rest[1] && (rest + q)[1..] == rest[1..] + q;
      if IsDigit(rest[1]) {
        TakeDigitsStable(rest[1..], q);
      } else {
        assert (rest + q)[2] == rest[2] && (rest + q)[2..] == rest[2..] + q;
        TakeDigitsStable(rest[2..], q);
      }
    }
  }

  lemma IntLengthStable(t: string, q: string)
    requires 0 < IntLength(t) < |t|
    ensures IntLength(t + q) == IntLength(t)
  {
    assert (t + q)[0] == t[0];
    if t[0] != '0' { TakeDigitsStable(t, q); }
  }

  lemma UnsignedStable(t: string, q: string)
    requires ReadUnsigned(t).Some? && Settled(ReadUnsigned(t).value.0, ReadUnsigned(t).value.1)
    ensures ReadUnsigned(t + q) == Some((ReadUnsigned(t).value.0, ReadUnsigned(t).value.1 + q))
  {
    var n := IntLength(t);
    var m := SuffixLength(t[n..]);
    UnsignedIs(t, n, m);
    First(t, n + m);
    PartsStable(t, q, n, m);
    UnsignedIs(t + q, n, m);
    Cuts(t, q, n);
    Cuts(t, q, n + m);
  }

  lemma First(t: string, n: nat)
    requires n <= |t|
    ensures t[n..] != "" ==> n < |t| && t[n..][0] == t[n]
  {
  }

  lemma Cuts(t: string, q: string, n: nat)
    requires n <= |t|
    ensures (t + q)[..n] == t[..n] && (t + q)[n..] == t[n..] + q
  {
  }

  lemma PartsStable(t: string, q: string, n: nat, m: nat)
    requires 0 < n == IntLength(t) && m == SuffixLength(t[n..]) && n + m < |t| && t[n + m] !in ".eE+-0123456789"
    ensures IntLength(t + q) == n && SuffixLength((t + q)[n..]) == m
  {
    IntLengthStable(t, q);
    Cuts(t, q, n);
    assert t[n..][m] == t[n + m];
    SuffixStable(t[n..], q);
  }

  lemma UnsignedIs(t: string, n: nat, m: nat)
    requires 0 < n <= |t| && n == IntLength(t) && m == SuffixLength(t[n..])
    ensures n + m <= |t| && (forall i :: 0 <= i < n ==> IsDigit(t[i]))
    ensures ReadUnsigned(t) == Some((if m == 0 then JInt(Value(t[..n])) else JFloat(t[..n + m]), t[n + m..]))
  {
  }

  /** Neither the fraction nor the exponent after a settled number grows. */
  lemma SuffixStable(rest: string, q: string)
    requires SuffixLength(rest) < |rest| && rest[SuffixLength(rest)] !in ".eE+-0123456789"
    ensures SuffixLength(rest + q) == SuffixLength(rest)
  {
    var fraction := FractionLength(rest);
    var tail := rest[fraction..];
    assert tail[ExponentLength(tail)] == rest[SuffixLength(rest)];
    FractionStable(rest, q);
    assert (rest + q)[fraction..] == tail + q;
    ExponentStable(tail, q);
  }

  lemma NumberStable(t: string, q: string)
    requires ReadNumber(t).Some? && Settled(ReadNumber(t).value.0, ReadNumber(t).value.1)
    ensures ReadNumber(t + q) == Some((ReadNumber(t).value.0, ReadNumber(t).value.1 + q))
    ensures t != "" && (IsDigit(t[0]) || (t[0] == '-' && |t| > 1 && IsDigit(t[1])))
  {
    assert t != "" && (t + q)[0] == t[0];
    if t[0] == '-' {
      assert (t + q)[1..] == t[1..] + q;
      UnsignedStable(t[1..], q);
    } else {
      UnsignedStable(t, q);
    }
  }

  lemma LiteralStable(t: string, q: string)
    requires ReadLiteral(t).Some?
    ensures ReadLiteral(t + q) == Some((ReadLiteral(t).value.0, ReadLiteral(t).value.1 + q))
  {
    var n := |t| - |ReadLiteral(t).value.1|;
    assert (t + q)[n..] == t[n..] + q;
    assert (t + q)[0] == t[0];
  }

  lemma {:induction false} ValueStable(t: string, q: string)
    requires ReadValue(t).Some? && Settled(ReadValue(t).value.0, ReadValue(t).value.1)
    ensures ReadValue(t + q) == Some((ReadValue(t).value.0, ReadValue(t).value.1 + q))
    decreases |t|, 0
  {
    assert (t + q)[0] == t[0] && (t + q)[1..] == t[1..] + q;
    if t[0] == '"' {
      StringStable(t[1..], q);
    } else if t[0] == '[' || t[0] == '{' {
      var u := SkipWs(t[1..]);
      SkipWsStable(t[1..], q);
      assert (u + q)[0] == u[0] && (u + q)[1..] == u[1..] + q;
      if t[0] == '[' && u[0] != ']' { ItemsStable(u, q); }
      if t[0] == '{' && u[0] != '}' { MembersStable(u, q); }
    } else if ReadLiteral(t).Some? {
      LiteralStable(t, q);
    } else {
      NumberStable(t, q);
      NotLiteral(t + q);
    }
  }

  /** A separator or bracket after optional whitespace settles any value before it. */
  lemma AfterSettles(v: Json, after: string)
    requires SkipWs(after) != "" && SkipWs(after)[0] in ",]}"
    ensures Settled(v, after)
  {
    if !IsWs(after[0]) { assert SkipWs(after) == after; }
  }

  lemma {:induction false} ItemsStable(t: string, q: string)
    requires ReadItems(t).Some?
    ensures ReadItems(t + q) == Some((ReadItems(t).value.0, ReadItems(t).value.1 + q))
    decreases |t|, 1
  {
    var (item, after) := ReadValue(t).value;
    AfterSettles(item, after);
    ValueStable(t, q);
    SkipWsStable(after, q);
    var u := SkipWs(after);
    assert (u + q)[0] == u[0] && (u + q)[1..] == u[1..] + q;
    if u[0] == ',' {
      SkipWsStable(u[1..], q);
      ItemsStable(SkipWs(u[1..]), q);
    }
  }

  lemma {:induction false} MembersStable(t: string, q: string)
    requires ReadMembers(t).Some?
    ensures ReadMembers(t + q) == Some((ReadMembers(t).value.0, ReadMembers(t).value.1 + q))
    decreases |t|, 1
  {
    MemberStable(t, q);
    var (member, after) := ReadMember(t).value;
    SkipWsStable(after, q);
    var u := SkipWs(after);
    var rest := u[1..];
    Cuts(u, q, 1);
    if u[0] == ',' {
      SkipWsStable(rest, q);
      MembersStable(SkipWs(rest), q);
      MembersGoOn(t, member, after);
      MembersGoOn(t + q, member, after + q);
    } else {
      MembersEnd(t + q, member, after + q);
    }
  }

  lemma MembersEnd(t: string, member: (string, Json), after: string)
    requires ReadMember(t) == Some((member, after)) && SkipWs(after) != "" && SkipWs(after)[0] == '}'
    ensures ReadMembers(t) == Some(([member], SkipWs(after)[1..]))
  {
  }

  lemma MembersGoOn(t: string, member: (string, Json), after: string)
    requires ReadMember(t) == Some((member, after)) && SkipWs(after) != "" && SkipWs(after)[0] == ','
    ensures ReadMembers(t) == match ReadMembers(SkipWs(SkipWs(after)[1..]))
      case None => None
      case Some((members, rest)) => Some(([member] + members, rest))
  {
  }

  lemma {:induction false} MemberStable(t: string, q: string)
    requires ReadMember(t).Some? && SkipWs(ReadMember(t).value.1) != "" && SkipWs(ReadMember(t).value.1)[0] in ",]}"
    ensures ReadMember(t + q) == Some((ReadMember(t).value.0, ReadMember(t).value.1 + q))
    decreases |t|, 0
  {
    assert (t + q)[0] == t[0] && (t + q)[1..] == t[1..] + q;
    StringStable(t[1..], q);
    var (key, afterKey) := ReadString(t[1..]).value;
    SkipWsStable(afterKey, q);
    var colon := SkipWs(afterKey);
    assert (colon + q)[0] == colon[0] && (colon + q)[1..] == colon[1..] + q;
    SkipWsStable(colon[1..], q);
    var (value, after) := ReadValue(SkipWs(colon[1..])).value;
    AfterSettles(value, after);
    ValueStable(SkipWs(colon[1..]), q);
  }
}
