/** Literal phrases at word boundaries, with exact UTF-8 byte offsets; overlapping matches are all kept. */
module PhraseMatch {
  import opened Prelude
  import opened Ordering

  const MAX_MATCHES := 1024

  /** One phrase of one term of the vocabulary. */
  datatype Pattern = Pattern(id: string, title: string, phrase: string)

  datatype Match = Match(id: string, title: string, phrase: string, quote: string, byteStart: nat, byteEnd: nat)

  // ----- UTF-8 -----

  function Width(c: char): nat {
    if c as int < 0x80 then 1 else if c as int < 0x800 then 2 else if c as int < 0x1_0000 then 3 else 4
  }

  function Utf8Char(c: char): (b: seq<int>)
    ensures |b| == Width(c)
  {
    var n := c as int;
    if n < 0x80 then [n]
    else if n < 0x800 then [0xC0 + n / 0x40, 0x80 + n % 0x40]
    else if n < 0x1_0000 then [0xE0 + n / 0x1000, 0x80 + n / 0x40 % 0x40, 0x80 + n % 0x40]
    else [0xF0 + n / 0x4_0000, 0x80 + n / 0x1000 % 0x40, 0x80 + n / 0x40 % 0x40, 0x80 + n % 0x40]
  }

  function Utf8(t: string): seq<int> { if t == "" then [] else Utf8(t[..|t| - 1]) + Utf8Char(t[|t| - 1]) }

  lemma {:induction false} Utf8Appends(a: string, b: string)
    ensures Utf8(a + b) == Utf8(a) + Utf8(b)
    decreases |b|
  {
    if b == "" {
      assert a + b == a;
    } else {
      var front, last := b[..|b| - 1], b[|b| - 1];
      Utf8Appends(a, front);
      LastOff(a, b);
      Associates(Utf8(a), Utf8(front), Utf8Char(last));
    }
  }

  lemma LastOff(a: string, b: string)
    requires b != ""
    ensures (a + b)[..|a + b| - 1] == a + b[..|b| - 1] && (a + b)[|a + b| - 1] == b[|b| - 1]
  {
  }

  /** The bytes of the first `i` characters. */
  function Offset(text: string, i: nat): nat
    requires i <= |text|
  {
    if i == 0 then 0 else Offset(text, i - 1) + Width(text[i - 1])
  }

  lemma {:induction false} OffsetCounts(text: string, i: nat)
    requires i <= |text|
    ensures Offset(text, i) == |Utf8(text[..i])|
  {
    if i > 0 {
      OffsetCounts(text, i - 1);
      assert text[..i][..i - 1] == text[..i - 1];
    }
  }

  /** The byte offset of each character boundary. */
  method ByteOffsets(text: string) returns (offsets: seq<nat>)
    ensures |offsets| == |text| + 1 && forall i :: 0 <= i <= |text| ==> offsets[i] == Offset(text, i)
  {
    offsets := [0];
    var total, n := 0, 0;
    while n < |text|
      invariant 0 <= n <= |text| && |offsets| == n + 1 && total == Offset(text, n)
      invariant forall i :: 0 <= i <= n ==> offsets[i] == Offset(text, i)
    {
      total := total + Width(text[n]);
      offsets := offsets + [total];
      n := n + 1;
    }
  }

  // ----- what a match is -----

  predicate Occurs(text: string, phrase: string, i: nat) { i + |phrase| <= |text| && text[i..i + |phrase|] == phrase }

  predicate IsWord(alnum: char -> bool, c: char) { alnum(c) || c == '_' }

  /** Neither side continues a word. */
  predicate Bounded(alnum: char -> bool, text: string, i: nat, j: nat)
    requires i <= j <= |text|
  {
    (i > 0 ==> !IsWord(alnum, text[i - 1])) && (j < |text| ==> !IsWord(alnum, text[j]))
  }

  predicate MatchesAt(alnum: char -> bool, text: string, phrase: string, i: nat) {
    Occurs(text, phrase, i) && Bounded(alnum, text, i, i + |phrase|)
  }

  function MatchOf(text: string, p: Pattern, i: nat): Match
    requires i + |p.phrase| <= |text|
  {
    Match(p.id, p.title, p.phrase, text[i..i + |p.phrase|], Offset(text, i), Offset(text, i + |p.phrase|))
  }

  /** Every match of one pattern that starts before `n`, by position. */
  function MatchesTo(alnum: char -> bool, text: string, p: Pattern, n: nat): seq<Match> {
    if n == 0 then []
    else MatchesTo(alnum, text, p, n - 1) + if MatchesAt(alnum, text, p.phrase, n - 1) then [MatchOf(text, p, n - 1)]
        else []
  }

  function AllMatches(alnum: char -> bool, text: string, patterns: seq<Pattern>): seq<Match> {
    if patterns == [] then []
    else
      AllMatches(alnum, text, patterns[..|patterns| - 1])
      + MatchesTo(alnum, text, patterns[|patterns| - 1], |text| + 1)
  }

  function Cost(size: Match -> nat, matches: seq<Match>): nat {
    if matches == [] then 0 else Cost(size, matches[..|matches| - 1]) + size(matches[|matches| - 1])
  }

  /** The bytes between the offsets of a match are the encoding of its quote, which is the phrase. */
  lemma OffsetsAreExact(text: string, p: Pattern, i: nat)
    requires Occurs(text, p.phrase, i)
    ensures var m := MatchOf(text, p, i);
      m.byteStart <= m.byteEnd <= |Utf8(text)| && m.quote == p.phrase &&
          Utf8(text)[m.byteStart..m.byteEnd] == Utf8(p.phrase)
  {
    var j := i + |p.phrase|;
    Utf8Slice(text, i, j);
    assert text[i..j] == p.phrase;
  }

  lemma Utf8Slice(text: string, i: nat, j: nat)
    requires i <= j <= |text|
    ensures Offset(text, i) <= Offset(text, j) <= |Utf8(text)|
    ensures Utf8(text)[Offset(text, i)..Offset(text, j)] == Utf8(text[i..j])
  {
    OffsetCounts(text, i);
    OffsetCounts(text, j);
    assert text[..i] + text[i..j] == text[..j] && text[..j] + text[j..] == text;
    Utf8Appends(text[..i], text[i..j]);
    Utf8Appends(text[..j], text[j..]);
    Joins(Utf8(text[..i]), Utf8(text[i..j]), Utf8(text[j..]));
  }

  lemma Joins(x: seq<int>, y: seq<int>, z: seq<int>)
    ensures (x + y + z)[|x|..|x + y|] == y
  {
  }

  /** The match is this phrase of the vocabulary, standing in the text between word boundaries. */
  ghost predicate Stands(alnum: char -> bool, text: string, p: Pattern, n: nat, m: Match) {
    exists i :: 0 <= i < n && MatchesAt(alnum, text, p.phrase, i) && m == MatchOf(text, p, i)
  }

  lemma {:induction false} MatchesHave(alnum: char -> bool, text: string, p: Pattern, n: nat, m: Match)
    ensures m in MatchesTo(alnum, text, p, n) <==> Stands(alnum, text, p, n, m)
  {
    if n > 0 {
      MatchesHave(alnum, text, p, n - 1, m);
      var last := if MatchesAt(alnum, text, p.phrase, n - 1) then [MatchOf(text, p, n - 1)] else [];
      assert m in MatchesTo(alnum, text, p, n) <==> m in MatchesTo(alnum, text, p, n - 1) || m in last;
      if m in last { assert MatchesAt(alnum, text, p.phrase, n - 1) && m == MatchOf(text, p, n - 1); }
    }
  }

  lemma {:induction false} SomePattern(alnum: char -> bool, text: string, patterns: seq<Pattern>, m: Match)
    ensures m in AllMatches(alnum, text, patterns) <==>
        exists k :: 0 <= k < |patterns| && m in MatchesTo(alnum, text, patterns[k], |text| + 1)
    decreases |patterns|
  {
    if patterns != [] {
      var n := |patterns| - 1;
      var front, last := AllMatches(alnum, text, patterns[..n]), MatchesTo(alnum, text, patterns[n], |text| + 1);
      SomePattern(alnum, text, patterns[..n], m);
      assert forall k :: 0 <= k < n ==> patterns[..n][k] == patterns[k];
      assert m in front + last <==> m in front || m in last;
    }
  }

  /** Exactly the phrases of the vocabulary that stand in the text, overlapping or not. */
  lemma MatchIff(alnum: char -> bool, text: string, patterns: seq<Pattern>, m: Match)
    ensures m in AllMatches(alnum, text, patterns) <==>
        exists k :: 0 <= k < |patterns| && Stands(alnum, text, patterns[k], |text| + 1, m)
  {
    SomePattern(alnum, text, patterns, m);
    forall k | 0 <= k < |patterns|
      ensures m in MatchesTo(alnum, text, patterns[k], |text| + 1) <==> Stands(alnum, text, patterns[k], |text| + 1, m)
    {
      MatchesHave(alnum, text, patterns[k], |text| + 1, m);
    }
  }

  // ----- the search -----

  /** The first occurrence at a position or after it. */
  method Find(text: string, phrase: string, position: nat) returns (found: Option<nat>)
    ensures found.Some? ==> position <= found.value && Occurs(text, phrase, found.value)
    ensures found.Some? ==> forall i :: position <= i < found.value ==> !Occurs(text, phrase, i)
    ensures found.None? ==> forall i :: position <= i <= |text| ==> !Occurs(text, phrase, i)
  {
    var i := position;
    while i <= |text|
      invariant position <= i && forall k :: position <= k < i ==> !Occurs(text, phrase, k)
    {
      if Occurs(text, phrase, i) { return Some(i); }
      i := i + 1;
    }
    found := None;
  }

  lemma {:induction false} SkipsNothing(alnum: char -> bool, text: string, p: Pattern, from: nat, stop: nat)
    requires from <= stop && forall i :: from <= i < stop ==> !Occurs(text, p.phrase, i)
    ensures MatchesTo(alnum, text, p, stop) == MatchesTo(alnum, text, p, from)
    decreases stop
  {
    if from < stop { SkipsNothing(alnum, text, p, from, stop - 1); }
  }

  lemma {:induction false} CostAppends(size: Match -> nat, a: seq<Match>, b: seq<Match>)
    ensures Cost(size, a + b) == Cost(size, a) + Cost(size, b)
    decreases |b|
  {
    if b == [] {
      assert a + b == a;
    } else {
      CostAppends(size, a, b[..|b| - 1]);
      assert (a + b)[..|a + b| - 1] == a + b[..|b| - 1];
    }
  }

  lemma {:induction false} MatchesGrow(alnum: char -> bool, text: string, p: Pattern, n: nat, stop: nat)
    requires n <= stop
    ensures MatchesTo(alnum, text, p, n) <= MatchesTo(alnum, text, p, stop)
    decreases stop
  {
    if n < stop { MatchesGrow(alnum, text, p, n, stop - 1); }
  }

  /** Too many matches, or too many bytes of them. */
  predicate OverLimit(size: Match -> nat, maximum: nat, matches: seq<Match>) {
    |matches| > MAX_MATCHES || Cost(size, matches) > maximum
  }

  lemma OverStays(size: Match -> nat, maximum: nat, a: seq<Match>, b: seq<Match>)
    requires a <= b && OverLimit(size, maximum, a)
    ensures OverLimit(size, maximum, b)
  {
    CostAppends(size, a, b[|a|..]);
    assert a + b[|a|..] == b;
  }

  /** Adds one match, or stops at a limit. */
  method Append(matches: seq<Match>, bytes: nat, m: Match, size: Match -> nat, maximum: nat)
      returns (r: Option<seq<Match>>, total: nat)
    requires bytes == Cost(size, matches) && !OverLimit(size, maximum, matches)
    ensures r.None? <==> OverLimit(size, maximum, matches + [m])
    ensures r.Some? ==> r.value == matches + [m] && total == Cost(size, matches + [m])
  {
    assert (matches + [m])[..|matches|] == matches;
    total := bytes + size(m);
    if |matches| >= MAX_MATCHES || total > maximum { return None, total; }
    r := Some(matches + [m]);
  }

  /** All matches of one pattern; each search starts one character after the last start, so overlaps are found. */
  method SearchPattern(alnum: char -> bool, text: string, offsets: seq<nat>, p: Pattern, before: seq<Match>, used: nat,
                       size: Match -> nat, maximum: nat) returns (r: Option<seq<Match>>, bytes: nat)
    requires |offsets| == |text| + 1 && forall i :: 0 <= i <= |text| ==> offsets[i] == Offset(text, i)
    requires used == Cost(size, before) && !OverLimit(size, maximum, before)
    ensures var all := before + MatchesTo(alnum, text, p, |text| + 1);
      (r.None? <==> OverLimit(size, maximum, all)) && (r.Some? ==> r.value == all && bytes == Cost(size, all))
  {
    var matches, position := before, 0;
    bytes := used;
    assert before + [] == before;
    while true
      invariant 0 <= position <= |text| + 1 && bytes == Cost(size, matches) && !OverLimit(size, maximum, matches)
      invariant matches == before + MatchesTo(alnum, text, p, position)
      decreases |text| + 1 - position
    {
      var found := Find(text, p.phrase, position);
      if found.None? {
        SkipsNothing(alnum, text, p, position, |text| + 1);
        return Some(matches), bytes;
      }
      SkipsNothing(alnum, text, p, position, found.value);
      var taken;
      taken, bytes := TakeAt(alnum, text, offsets, p, found.value, before, matches, bytes, size, maximum);
      if taken.None? { return None, bytes; }
      matches := taken.value;
      position := found.value + 1;
    }
  }

  /** Keeps an occurrence that stands between word boundaries. */
  method TakeAt(alnum: char -> bool, text: string, offsets: seq<nat>, p: Pattern, start: nat, ghost before: seq<Match>,
      matches: seq<Match>,
                used: nat, size: Match -> nat, maximum: nat) returns (r: Option<seq<Match>>, bytes: nat)
    requires |offsets| == |text| + 1 && forall i :: 0 <= i <= |text| ==> offsets[i] == Offset(text, i)
    requires Occurs(text, p.phrase, start) && matches == before + MatchesTo(alnum, text, p, start)
    requires used == Cost(size, matches) && !OverLimit(size, maximum, matches)
    ensures r.Some? ==> r.value == before + MatchesTo(alnum, text, p, start + 1)
    ensures r.Some? ==> bytes == Cost(size, r.value) && !OverLimit(size, maximum, r.value)
    ensures r.None? ==> OverLimit(size, maximum, before + MatchesTo(alnum, text, p, |text| + 1))
  {
    var end := start + |p.phrase|;
    if (start > 0 && IsWord(alnum, text[start - 1])) || (end < |text| && IsWord(alnum, text[end])) {
      NoMatchHere(alnum, text, p, start);
      return Some(matches), used;
    }
    var m := Match(p.id, p.title, p.phrase, text[start..end], offsets[start], offsets[end]);
    r, bytes := Append(matches, used, m, size, maximum);
    OneMoreMatch(alnum, text, p, start, before, m);
    if r.None? { OverToTheEnd(alnum, text, p, start, before, matches + [m], size, maximum); }
  }

  lemma OverToTheEnd(alnum: char -> bool, text: string, p: Pattern, start: nat, before: seq<Match>, now: seq<Match>,
      size: Match -> nat, maximum: nat)
    requires start <= |text| && now == before + MatchesTo(alnum, text, p, start + 1) && OverLimit(size, maximum, now)
    ensures OverLimit(size, maximum, before + MatchesTo(alnum, text, p, |text| + 1))
  {
    MatchesGrow(alnum, text, p, start + 1, |text| + 1);
    OverStays(size, maximum, now, before + MatchesTo(alnum, text, p, |text| + 1));
  }

  lemma NoMatchHere(alnum: char -> bool, text: string, p: Pattern, start: nat)
    requires Occurs(text, p.phrase, start) && !Bounded(alnum, text, start, start + |p.phrase|)
    ensures MatchesTo(alnum, text, p, start + 1) == MatchesTo(alnum, text, p, start)
  {
  }

  lemma OneMoreMatch(alnum: char -> bool, text: string, p: Pattern, start: nat, before: seq<Match>, m: Match)
    requires MatchesAt(alnum, text, p.phrase, start) && m == MatchOf(text, p, start)
    ensures before + MatchesTo(alnum, text, p, start + 1) == before + MatchesTo(alnum, text, p, start) + [m]
  {
  }

  // ----- the order -----

  /** Start, end, term, phrase. */
  predicate MatchBefore(a: Match, b: Match) {
    a.byteStart < b.byteStart ||
        (a.byteStart == b.byteStart && (a.byteEnd < b.byteEnd || (a.byteEnd == b.byteEnd && NameBefore(a, b))))
  }

  predicate NameBefore(a: Match, b: Match) {
    StringBefore(a.id, b.id) || (a.id == b.id && StringBefore(a.phrase, b.phrase))
  }

  lemma MatchesWeakOrder()
    ensures WeakOrder(MatchBefore)
  {
    StringsStrictTotal();
    forall a, b, c | !MatchBefore(a, b) && !MatchBefore(b, c) ensures !MatchBefore(a, c) {
      assert NameBefore(a, c) ==> NameBefore(a, b) || NameBefore(b, c);
    }
  }

  /** Two matches tie only if they are one phrase of one term at one place. */
  lemma TiesAreEqual(a: Match, b: Match)
    ensures !MatchBefore(a, b) && !MatchBefore(b, a) <==>
        a.byteStart == b.byteStart && a.byteEnd == b.byteEnd && a.id == b.id && a.phrase == b.phrase
  {
    StringsStrictTotal();
  }

  /** All matches in order, or a refusal exactly when they exceed a limit. */
  method FindAll(alnum: char -> bool, text: string, patterns: seq<Pattern>, size: Match -> nat, maximum: nat)
    returns (r: Option<seq<Match>>)
    ensures var all := AllMatches(alnum, text, patterns);
      && (r.None? <==> OverLimit(size, maximum, all))
      && (r.Some? ==> multiset(r.value) == multiset(all) && Rising(MatchBefore, r.value))
  {
    var offsets := ByteOffsets(text);
    var matches, bytes, n := [], 0, 0;
    while n < |patterns|
      invariant 0 <= n <= |patterns| && matches == AllMatches(alnum, text, patterns[..n])
      invariant bytes == Cost(size, matches) && !OverLimit(size, maximum, matches)
    {
      assert patterns[..n + 1][..n] == patterns[..n];
      var found;
      found, bytes := SearchPattern(alnum, text, offsets, patterns[n], matches, bytes, size, maximum);
      if found.None? {
        PatternsGrow(alnum, text, patterns, n + 1);
        OverStays(size, maximum, AllMatches(alnum, text, patterns[..n + 1]), AllMatches(alnum, text, patterns));
        return None;
      }
      matches := found.value;
      n := n + 1;
    }
    assert patterns[..n] == patterns;
    MatchesWeakOrder();
    var ordered := Sort(MatchBefore, matches);
    r := Some(ordered);
  }

  lemma {:induction false} PatternsGrow(alnum: char -> bool, text: string, patterns: seq<Pattern>, n: nat)
    requires n <= |patterns|
    ensures AllMatches(alnum, text, patterns[..n]) <= AllMatches(alnum, text, patterns)
    decreases |patterns| - n
  {
    if n < |patterns| {
      PatternsGrow(alnum, text, patterns, n + 1);
      assert patterns[..n + 1][..n] == patterns[..n];
    } else {
      assert patterns[..n] == patterns;
    }
  }
}
