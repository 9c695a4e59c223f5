/** The canonical spelling of strings and rows by a chain of replacements in SQL, which is the one-pass escape of
    section 3.2.2.2 of RFC 8785. */
module StringEscape {
  import opened Prelude
  import opened Ordering
  import opened Replacing
  import opened JsonText

  // ----- the chain -----

  /** The replacement text of a control character: a short escape, or four lower-case hexadecimal digits. */
  function ControlEscape(code: nat): string
    requires code < 32
  {
    if code in [8, 9, 10, 12, 13] then ['\\', SHORT[code]]
        else ['\\', 'u', '0', '0', HexDigit(code / 16), HexDigit(code % 16)]
  }

  /** The replacements of the control characters from `code` on, each over the result of the one before. */
  function ControlChain(s: string, code: nat): string
    requires code <= 32
    decreases 32 - code
  {
    if code == 32 then s else ControlChain(Replace(s, code as char, ControlEscape(code)), code + 1)
  }

  /** Backslash first, then the quote, then the thirty-two control characters. */
  function Chain(s: string): string { ControlChain(Replace(Replace(s, '\\', "\\\\"), '"', "\\\""), 0) }

  lemma {:induction false} ControlAppends(a: string, b: string, code: nat)
    requires code <= 32
    ensures ControlChain(a + b, code) == ControlChain(a, code) + ControlChain(b, code)
    decreases 32 - code
  {
    if code < 32 {
      ReplaceAppends(a, b, code as char, ControlEscape(code));
      ControlAppends(Replace(a, code as char, ControlEscape(code)), Replace(b, code as char, ControlEscape(code)),
          code + 1);
    }
  }

  predicate Plain(s: string) { forall i :: 0 <= i < |s| ==> s[i] >= ' ' }

  lemma {:induction false} ControlLeavesPlain(s: string, code: nat)
    requires Plain(s) && code <= 32
    ensures ControlChain(s, code) == s
    decreases 32 - code
  {
    if code < 32 {
      ReplaceNothing(s, code as char, ControlEscape(code));
      ControlLeavesPlain(s, code + 1);
    }
  }

  lemma {:induction false} ControlOne(c: char, code: nat)
    requires code <= c as int < 32
    ensures ControlChain([c], code) == ControlEscape(c as int)
    decreases 32 - code
  {
    var e := ControlEscape(code);
    assert [c][1..] == "" && e + "" == e;
    if code == c as int {
      assert Replace([c], code as char, e) == e;
      ControlLeavesPlain(e, code + 1);
    } else {
      ReplaceNothing([c], code as char, e);
      ControlOne(c, code + 1);
    }
  }

  lemma ChainBackslash()
    ensures Chain("\\") == "\\\\"
  {
    assert "\\"[1..] == "";
    assert Replace("\\", '\\', "\\\\") == "\\\\";
    ReplaceNothing("\\\\", '"', "\\\"");
    ControlLeavesPlain("\\\\", 0);
  }

  lemma ChainQuote()
    ensures Chain("\"") == "\\\""
  {
    assert "\""[1..] == "";
    ReplaceNothing("\"", '\\', "\\\\");
    assert Replace("\"", '"', "\\\"") == "\\\"";
    ControlLeavesPlain("\\\"", 0);
  }

  lemma ChainOther(c: char)
    requires c != '\\' && c != '"'
    ensures Chain([c]) == if c < ' ' then ControlEscape(c as int) else [c]
  {
    ReplaceNothing([c], '\\', "\\\\");
    ReplaceNothing([c], '"', "\\\"");
    if c < ' ' { ControlOne(c, 0); } else { ControlLeavesPlain([c], 0); }
  }

  lemma EscapeOther(c: char)
    requires c != '\\' && c != '"'
    ensures Escape(c) == if c < ' ' then ControlEscape(c as int) else [c]
  {
  }

  lemma ChainOne(c: char)
    ensures Chain([c]) == Escape(c)
  {
    if c == '\\' {
      ChainBackslash();
    } else if c == '"' {
      ChainQuote();
    } else {
      ChainOther(c);
      EscapeOther(c);
    }
  }

  lemma ChainAppends(a: string, b: string)
    ensures Chain(a + b) == Chain(a) + Chain(b)
  {
    ReplaceAppends(a, b, '\\', "\\\\");
    var x, y := Replace(a, '\\', "\\\\"), Replace(b, '\\', "\\\\");
    ReplaceAppends(x, y, '"', "\\\"");
    ControlAppends(Replace(x, '"', "\\\""), Replace(y, '"', "\\\""), 0);
  }

  /** The thirty-four replacements, one after another, are the escape of section 3.2.2.2 of RFC 8785 in one pass. */
  lemma {:induction false} ChainIsEscape(s: string)
    ensures Chain(s) == EscapeAll(s)
  {
    if s == "" {
      ControlLeavesPlain("", 0);
    } else {
      assert s == [s[0]] + s[1..];
      ChainAppends([s[0]], s[1..]);
      ChainOne(s[0]);
      ChainIsEscape(s[1..]);
    }
  }

  /** The same chain, as the loop that nests the replacements. */
  method ChainLoop(s: string) returns (r: string)
    ensures r == EscapeAll(s)
  {
    r := Replace(Replace(s, '\\', "\\\\"), '"', "\\\"");
    var code := 0;
    while code < 32
      invariant 0 <= code <= 32 && ControlChain(r, code) == Chain(s)
    {
      r := Replace(r, code as char, ControlEscape(code));
      code := code + 1;
    }
    ChainIsEscape(s);
  }

  // ----- strings and rows -----

  function UpperHex(n: nat): char
    requires n < 16
  {
    if n < 10 then HexDigit(n) else ('A' as int + n - 10) as char
  }

  /** The engine's own spelling: upper-case digits. */
  function EngineEscape(c: char): string {
    if c < ' ' && c as int !in SHORT then ['\\', 'u', '0', '0', UpperHex(c as int / 16), UpperHex(c as int % 16)]
        else Escape(c)
  }

  function EngineEscapeAll(s: string): string { if s == "" then "" else EngineEscape(s[0]) + EngineEscapeAll(s[1..]) }

  function EngineString(s: string): string { "\"" + EngineEscapeAll(s) + "\"" }

  function JcsString(s: string): string {
    if exists i | 0 <= i < |s| :: s[i] < ' ' then "\"" + Chain(s) + "\"" else EngineString(s)
  }

  /** A control character whose escape has a letter among its digits. */
  predicate Lettered(c: char) { c < ' ' && c as int !in SHORT && c as int % 16 >= 10 }

  lemma {:induction false} EngineDiffers(s: string)
    ensures |EngineEscapeAll(s)| == |EscapeAll(s)|
    ensures EngineEscapeAll(s) == EscapeAll(s) <==> forall i :: 0 <= i < |s| ==> !Lettered(s[i])
  {
    if s != "" {
      var c, rest := s[0], s[1..];
      EngineDiffers(rest);
      assert forall i :: 0 <= i < |rest| ==> rest[i] == s[i + 1];
      var a, b := EngineEscape(c), Escape(c);
      assert |a| == |b|;
      assert a == b <==> !Lettered(c) by {
        if c < ' ' && c as int !in SHORT { assert a[5] == UpperHex(c as int % 16) && b[5] == HexDigit(c as int % 16); }
      }
      assert (a + EngineEscapeAll(rest))[..|a|] == a && (b + EscapeAll(rest))[..|b|] == b;
      assert (a + EngineEscapeAll(rest))[|a|..] == EngineEscapeAll(rest) &&
          (b + EscapeAll(rest))[|b|..] == EscapeAll(rest);
      assert (forall i :: 0 <= i < |s| ==> !Lettered(s[i])) <==>
          !Lettered(c) && forall i :: 0 <= i < |rest| ==> !Lettered(rest[i]);
    }
  }

  /** The engine's spelling is canonical exactly when no such character is in the string, and the spelling chosen
      always is. */
  lemma JcsIsCanonical(s: string)
    ensures JcsString(s) == Print(JStr(s))
    ensures EngineString(s) == Print(JStr(s)) <==> forall i :: 0 <= i < |s| ==> !Lettered(s[i])
  {
    ChainIsEscape(s);
    EngineDiffers(s);
    var a, b := EngineString(s), Print(JStr(s));
    assert a[1..1 + |EngineEscapeAll(s)|] == EngineEscapeAll(s) && b[1..1 + |EscapeAll(s)|] == EscapeAll(s);
  }

  type Row = map<string, Option<string>>

  function Cell(v: Option<string>): string { if v.Some? then JcsString(v.value) else "null" }

  function CellValue(v: Option<string>): Json { if v.Some? then JStr(v.value) else JNull }

  /** Members without spaces, up to and with the closing brace. */
  function RowMembers(row: Row, columns: seq<string>): string
    requires columns != [] && forall c :: c in columns ==> c in row
  {
    var first := "\"" + (columns[0] + ("\"" + (":" + Cell(row[columns[0]]))));
    first + if |columns| == 1 then "}" else "," + RowMembers(row, columns[1..])
  }

  function RowJson(row: Row): string
    requires row.Keys != {}
  {
    assert exists c :: c in row.Keys;
    "{" + RowMembers(row, Sorted(row.Keys))
  }

  function Members(row: Row, columns: seq<string>): seq<(string, Json)>
    requires forall c :: c in columns ==> c in row
  {
    if columns == [] then [] else [(columns[0], CellValue(row[columns[0]]))] + Members(row, columns[1..])
  }

  /** A column name written as it stands. */
  predicate Unescaped(c: string) { EscapeAll(c) == c }

  lemma MemberReads(c: string, v: Option<string>, rest: string)
    requires Unescaped(c) && Ends(rest)
    ensures ReadMember("\"" + (c + ("\"" + (":" + (Cell(v) + rest))))) == Some(((c, CellValue(v)), rest))
  {
    var text := Cell(v) + rest;
    var after := ":" + text;
    Associates(c, "\"", after);
    StringReadsBack(c, after);
    CellReads(v, rest);
    MemberIs(c, after, text, CellValue(v), rest);
  }

  lemma CellReads(v: Option<string>, rest: string)
    requires Ends(rest)
    ensures var text := Cell(v) + rest; SkipWs(text) == text && ReadValue(text) == Some((CellValue(v), rest))
  {
    if v.Some? { JcsIsCanonical(v.value); }
    assert Cell(v) == Print(CellValue(v));
    PrintStarts(CellValue(v));
    assert (Cell(v) + rest)[0] == Cell(v)[0];
    ReadsBack(CellValue(v), rest);
  }

  lemma MemberIs(c: string, after: string, text: string, value: Json, rest: string)
    requires ReadString(c + ("\"" + after)) == Some((c, after)) && after == ":" + text
    requires SkipWs(text) == text && ReadValue(text) == Some((value, rest))
    ensures ReadMember("\"" + (c + ("\"" + after))) == Some(((c, value), rest))
  {
    var t := "\"" + (c + ("\"" + after));
    assert t[1..] == c + ("\"" + after) && after[1..] == text && SkipWs(after) == after;
  }

  lemma {:induction false} MembersRead(row: Row, columns: seq<string>)
    requires columns != [] && (forall c :: c in columns ==> c in row) && forall c :: c in columns ==> Unescaped(c)
    ensures ReadMembers(RowMembers(row, columns)) == Some((Members(row, columns), ""))
  {
    var c, v := columns[0], row[columns[0]];
    var tail := if |columns| == 1 then "}" else "," + RowMembers(row, columns[1..]);
    assert RowMembers(row, columns) == "\"" + (c + ("\"" + (":" + (Cell(v) + tail))));
    MemberReads(c, v, tail);
    if |columns| == 1 {
      assert Members(row, columns) == [(c, CellValue(v))];
      MembersEnd(RowMembers(row, columns), (c, CellValue(v)), tail);
      assert SkipWs(tail) == tail && tail[1..] == "";
    } else {
      MembersRead(row, columns[1..]);
      var more := RowMembers(row, columns[1..]);
      assert more[0] == '"' && tail[1..] == more;
      assert SkipWs(tail) == tail && SkipWs(more) == more;
      MembersGoOn(RowMembers(row, columns), (c, CellValue(v)), tail);
    }
  }

  lemma ObjectReads(body: string, members: seq<(string, Json)>)
    requires body != "" && body[0] == '"' && ReadMembers(body) == Some((members, ""))
    ensures Loads("{" + body) == Some(JObj(members))
  {
    var t := "{" + body;
    assert t[0] == '{' && t[1..] == body && SkipWs(t) == t && SkipWs(body) == body;
  }

  /** The row as it is written reads back as exactly its columns, in key order, null for what is missing. */
  lemma RowReadsBack(row: Row)
    requires row.Keys != {} && forall c :: c in row.Keys ==> Unescaped(c)
    ensures Loads(RowJson(row)) == Some(JObj(Members(row, Sorted(row.Keys))))
  {
    var columns := Sorted(row.Keys);
    MembersRead(row, columns);
    ObjectReads(RowMembers(row, columns), Members(row, columns));
  }
}
