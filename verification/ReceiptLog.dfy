/** A receipt of JSON lines that survives a kill in the middle of a write. */
module ReceiptLog {
  // The file is text whose bytes are single characters (the writer escapes all
  // else).  A kill cuts what a session appended at any byte.

  import opened Prelude
  import opened JsonText

  predicate IsEnd(c: char) { c == '\n' || c == '\r' }

  /** The length of the first line with its terminator; a carriage return and a newline end one line together. */
  function LineLength(t: string): (n: nat)
    requires t != ""
    ensures 0 < n <= |t|
  {
    if t[0] == '\n' then 1
    else if t[0] == '\r' then (if |t| > 1 && t[1] == '\n' then 2 else 1)
    else if |t| == 1 then 1
    else 1 + LineLength(t[1..])
  }

  /** `splitlines(keepends=True)`. */
  function SplitLines(t: string): seq<string>
    decreases |t|
  {
    if t == "" then [] else [t[..LineLength(t)]] + SplitLines(t[LineLength(t)..])
  }

  predicate Blank(line: string) {
    forall i :: 0 <= i < |line| ==> line[i] in [' ', '\t', '\n', '\r', 11 as char, 12 as char]
  }

  predicate Terminated(line: string) { line != "" && IsEnd(line[|line| - 1]) }

  datatype Receipt = Receipt(rows: seq<Json>, complete: nat) | Damaged

  /** The complete records and the bytes they take; only an unterminated last line may be torn. */
  function ReadLines(lines: seq<string>): Receipt {
    if lines == [] then Receipt([], 0)
    else
      var line, rest := lines[0], lines[1..];
      if Blank(line) then Follow([], |line|, ReadLines(rest))
      else match Loads(line)
           case Some(row) => Follow([row], |line|, ReadLines(rest))
           case None => if rest == [] && !Terminated(line) then Receipt([], 0) else Damaged
  }

  function Follow(rows: seq<Json>, bytes: nat, rest: Receipt): Receipt {
    match rest
    case Damaged => Damaged
    case Receipt(more, complete) => Receipt(rows + more, bytes + complete)
  }

  function ReadFile(t: string): Receipt { ReadLines(SplitLines(t)) }

  // ----- records -----

  /** The text of one JSON object and nothing else, on one line. */
  predicate RecordText(r: string) {
    && (match ReadValue(r) case Some((JObj(_), "")) => true case _ => false)
    && r[0] == '{'
    && forall i :: 0 <= i < |r| ==> !IsEnd(r[i])
  }

  function ValueOf(r: string): Json
    requires RecordText(r)
  {
    ReadValue(r).value.0
  }

  function Encode(records: seq<string>): string {
    if records == [] then "" else records[0] + "\n" + Encode(records[1..])
  }

  predicate AllRecords(records: seq<string>) { forall i :: 0 <= i < |records| ==> RecordText(records[i]) }

  function Values(records: seq<string>): seq<Json>
    requires AllRecords(records)
  {
    if records == [] then [] else [ValueOf(records[0])] + Values(records[1..])
  }

  /** What a kill can leave after whole lines: nothing, a torn record, or a record without its newline. */
  predicate Partial(p: string, r: string) { RecordText(r) && p <= r }

  /** A record whose final brace is missing never parses. */
  lemma TornNeverParses(p: string, r: string)
    requires RecordText(r) && p < r && p != ""
    ensures Loads(p).None?
  {
    assert p[0] == r[0];
    if Loads(p).Some? {
      var q := r[|p|..];
      assert p + q == r && SkipWs(p) == p;
      ValueStable(p, q);
    }
  }

  lemma WholeParses(r: string)
    requires RecordText(r)
    ensures Loads(r) == Some(ValueOf(r)) && Loads(r + "\n") == Some(ValueOf(r))
  {
    assert SkipWs(r) == r && SkipWs(r + "\n") == r + "\n";
    ValueStable(r, "\n");
    assert "" + "\n" == "\n" && SkipWs("\n") == SkipWs("");
  }

  lemma {:induction false} LineLengthIs(r: string, after: string)
    requires r != "" && forall i :: 0 <= i < |r| ==> !IsEnd(r[i])
    ensures LineLength(r) == |r| && LineLength(r + "\n" + after) == |r| + 1
    decreases |r|
  {
    var t := r + "\n" + after;
    if |r| == 1 {
      assert t[1..] == "\n" + after;
    } else {
      assert t[1..] == r[1..] + "\n" + after;
      LineLengthIs(r[1..], after);
    }
  }

  /** One record line at the front of a file reads as that record. */
  lemma ReadsRecord(r: string, after: string)
    requires RecordText(r)
    ensures ReadFile(r + "\n" + after) == Follow([ValueOf(r)], |r| + 1, ReadFile(after))
  {
    var t := r + "\n" + after;
    LineLengthIs(r, after);
    WholeParses(r);
    assert t[..|r| + 1] == r + "\n" && t[|r| + 1..] == after;
    assert !Blank(r + "\n") by { assert (r + "\n")[0] == '{'; }
    assert SplitLines(t) == [r + "\n"] + SplitLines(after);
    assert SplitLines(t)[1..] == SplitLines(after);
  }

  /** The torn tail is read as nothing, and a record that only lost its newline is read whole. */
  lemma ReadsPartial(p: string, r: string)
    requires Partial(p, r)
    ensures ReadFile(p) == if p == r then Receipt([ValueOf(r)], |r|) else Receipt([], 0)
  {
    if p != "" {
      LineLengthIs(p, "");
      assert p[..|p|] == p && p[|p|..] == "";
      assert SplitLines(p) == [p] && SplitLines(p)[1..] == [];
      assert p[0] == '{' && !Blank(p);
      if p == r { WholeParses(r); } else { TornNeverParses(p, r); }
      assert ReadLines([]) == Receipt([], 0);
      assert [ValueOf(r)] + [] == [ValueOf(r)];
    }
  }

  /** Any whole lines, then whatever a kill left: exactly the records whose final brace survived. */
  lemma {:induction false} ReadsFile(records: seq<string>, p: string, r: string)
    requires AllRecords(records) && Partial(p, r)
    ensures ReadFile(Encode(records) + p) ==
      Receipt(Values(records) + if p == r then [ValueOf(r)] else [], |Encode(records)| + if p == r then |r| else 0)
    decreases |records|
  {
    if records == [] {
      assert Encode(records) + p == p;
      ReadsPartial(p, r);
    } else {
      var after := Encode(records[1..]) + p;
      assert Encode(records) + p == records[0] + "\n" + after;
      ReadsRecord(records[0], after);
      ReadsFile(records[1..], p, r);
      assert Values(records) + (if p == r then [ValueOf(r)] else []) ==
        [ValueOf(records[0])] + (Values(records[1..]) + if p == r then [ValueOf(r)] else []);
    }
  }

  // ----- repair, append, kill -----

  predicate NeedsEnd(base: string) { base != "" && !IsEnd(base[|base| - 1]) }

  /** The bytes a session keeps: the complete ones.  A damaged receipt is left alone, because the session stops. */
  function Kept(f: string): string {
    match ReadFile(f)
    case Damaged => f
    case Receipt(_, complete) => if complete <= |f| then f[..complete] else f
  }

  /** What a session writes after truncating: the missing newline, then one line for each record. */
  function Written(base: string, added: seq<string>): string { Ending(base) + Encode(added) }

  /** A session killed once `k` of its bytes reached the file.  It may be killed before the newline of its repair. */
  function Session(f: string, added: seq<string>, k: nat): string {
    var base := Kept(f);
    base + Prefix(Written(base, added), k)
  }

  function Prefix(s: string, n: nat): string { if n <= |s| then s[..n] else s }

  /** The records whose final brace is among the first `k` bytes. */
  function Survived(added: seq<string>, k: int): seq<string> {
    if added == [] || k < |added[0]| then [] else [added[0]] + Survived(added[1..], k - |added[0]| - 1)
  }

  /** The file holds these records: whole lines and whatever a kill left of one more. */
  ghost predicate Holds(f: string, records: seq<string>) {
    exists whole: seq<string>, p: string, r: string :: HoldsAs(f, records, whole, p, r)
  }

  predicate HoldsAs(f: string, records: seq<string>, whole: seq<string>, p: string, r: string) {
    AllRecords(whole) && Partial(p, r) && f == Encode(whole) + p && records == WithLast(whole, p, r)
  }

  /** A record that is whole but for its newline counts. */
  function WithLast(whole: seq<string>, p: string, r: string): seq<string> { if p == r then whole + [r] else whole }

  lemma {:induction false} ValuesAppend(a: seq<string>, b: seq<string>)
    requires AllRecords(a) && AllRecords(b)
    ensures AllRecords(a + b) && Values(a + b) == Values(a) + Values(b)
  {
    if a == [] {
      assert a + b == b;
    } else {
      ValuesAppend(a[1..], b);
      ValuesStep(a, b);
    }
  }

  lemma ValuesStep(a: seq<string>, b: seq<string>)
    requires a != [] && AllRecords(a) && AllRecords(b)
    requires AllRecords(a[1..] + b) && Values(a[1..] + b) == Values(a[1..]) + Values(b)
    ensures AllRecords(a + b) && Values(a + b) == Values(a) + Values(b)
  {
    assert (a + b)[1..] == a[1..] + b && (a + b)[0] == a[0];
    Associates([ValueOf(a[0])], Values(a[1..]), Values(b));
  }

  lemma {:induction false} EncodeAppend(a: seq<string>, b: seq<string>)
    ensures Encode(a + b) == Encode(a) + Encode(b)
  {
    if a == [] {
      assert a + b == b;
    } else {
      assert (a + b)[1..] == a[1..] + b;
      EncodeAppend(a[1..], b);
    }
  }

  lemma {:induction false} EncodeEnds(a: seq<string>)
    requires a != []
    ensures Encode(a) != "" && Encode(a)[|Encode(a)| - 1] == '\n'
  {
    if |a| > 1 { EncodeEnds(a[1..]); } else { assert Encode(a[1..]) == ""; }
  }

  lemma Hold(whole: seq<string>, p: string, r: string)
    requires AllRecords(whole) && Partial(p, r)
    ensures p == r ==> Holds(Encode(whole) + p, whole + [r])
    ensures p != r ==> Holds(Encode(whole) + p, whole)
  {
    assert HoldsAs(Encode(whole) + p, WithLast(whole, p, r), whole, p, r);
  }

  lemma KeptWhole(whole: seq<string>, r: string)
    requires AllRecords(whole) && RecordText(r)
    ensures var f := Encode(whole) + r;
      && AllRecords(whole + [r]) && ReadFile(f).Receipt? && ReadFile(f).rows == Values(whole + [r])
      && Kept(f) == f && NeedsEnd(f) && f + "\n" == Encode(whole + [r])
  {
    ReadsFile(whole, r, r);
    ValuesAppend(whole, [r]);
    EncodeAppend(whole, [r]);
    assert Values([r]) == [ValueOf(r)] + Values([]);
    assert Encode([r]) == r + "\n" + Encode([]);
    var f := Encode(whole) + r;
    assert f[|f| - 1] == r[|r| - 1];
  }

  lemma KeptTorn(whole: seq<string>, p: string, r: string)
    requires AllRecords(whole) && Partial(p, r) && p != r
    ensures var f := Encode(whole) + p;
      ReadFile(f) == Receipt(Values(whole), |Encode(whole)|) && Kept(f) == Encode(whole) && !NeedsEnd(Encode(whole))
  {
    ReadsFile(whole, p, r);
    assert Values(whole) + [] == Values(whole);
    if whole != [] { EncodeEnds(whole); }
  }

  function Ending(base: string): string { if NeedsEnd(base) then "\n" else "" }

  /** Repair drops a torn tail, gives a whole record its newline, and changes nothing else. */
  lemma RepairIs(f: string, records: seq<string>)
    requires Holds(f, records)
    ensures AllRecords(records) && ReadFile(f).Receipt? && ReadFile(f).rows == Values(records)
    ensures Kept(f) + Ending(Kept(f)) == Encode(records)
    ensures Holds(Kept(f), records)
  {
    var whole: seq<string>, p: string, r: string :| HoldsAs(f, records, whole, p, r);
    if p == r { RepairWhole(whole, r); } else { RepairTorn(whole, p, r); }
  }

  lemma RepairWhole(whole: seq<string>, r: string)
    requires AllRecords(whole) && RecordText(r)
    ensures var f, records := Encode(whole) + r, whole + [r];
      && AllRecords(records) && ReadFile(f).Receipt? && ReadFile(f).rows == Values(records)
      && Kept(f) + Ending(Kept(f)) == Encode(records) && Holds(Kept(f), records)
  {
    KeptWhole(whole, r);
    Hold(whole, r, r);
  }

  lemma RepairTorn(whole: seq<string>, p: string, r: string)
    requires AllRecords(whole) && Partial(p, r) && p != r
    ensures var f := Encode(whole) + p;
      && ReadFile(f).Receipt? && ReadFile(f).rows == Values(whole)
      && Kept(f) + Ending(Kept(f)) == Encode(whole) && Holds(Kept(f), whole)
  {
    KeptTorn(whole, p, r);
    HoldWhole(whole, r);
  }

  lemma HoldWhole(whole: seq<string>, r: string)
    requires AllRecords(whole) && RecordText(r)
    ensures Holds(Encode(whole), whole)
  {
    var nothing := "";
    assert Partial(nothing, r) && nothing != r;
    Hold(whole, nothing, r);
    assert Encode(whole) + nothing == Encode(whole);
  }

  /** A cut leaves the surviving records and at most one torn one. */
  lemma {:induction false} CutHolds(before: seq<string>, added: seq<string>, k: nat)
    requires AllRecords(before) && AllRecords(added) && k <= |Encode(added)|
    ensures Holds(Encode(before) + Encode(added)[..k], before + Survived(added, k))
    decreases |added|
  {
    if added == [] {
      Empty();
      assert Encode(before) + Encode(added)[..k] == Encode(before) + "" && before + [] == before;
      Hold(before, "", "{}");
    } else if k <= |added[0]| {
      CutFirst(before, added, k);
    } else {
      CutLater(before, added, k);
      CutHolds(before + [added[0]], added[1..], k - |added[0]| - 1);
    }
  }

  lemma CutFirst(before: seq<string>, added: seq<string>, k: nat)
    requires AllRecords(before) && AllRecords(added) && added != [] && k <= |added[0]|
    ensures k <= |Encode(added)| && Holds(Encode(before) + Encode(added)[..k], before + Survived(added, k))
  {
    var r := added[0];
    assert Encode(added) == r + ("\n" + Encode(added[1..]));
    assert Encode(added)[..k] == r[..k];
    Hold(before, r[..k], r);
    if k == |r| {
      assert Survived(added[1..], -1) == [];
      assert r[..k] == r && Survived(added, k) == [r];
    } else {
      assert before + [] == before;
    }
  }

  lemma CutLater(before: seq<string>, added: seq<string>, k: nat)
    requires AllRecords(before) && AllRecords(added) && added != [] && |added[0]| < k <= |Encode(added)|
    ensures var rest, n := added[1..], k - |added[0]| - 1;
      && AllRecords(before + [added[0]]) && AllRecords(rest) && n <= |Encode(rest)|
      && Encode(before) + Encode(added)[..k] == Encode(before + [added[0]]) + Encode(rest)[..n]
      && before + Survived(added, k) == before + [added[0]] + Survived(rest, n)
  {
    var line, more := added[0] + "\n", Encode(added[1..]);
    CutApart(line, more, k);
    EncodeAppend(before, [added[0]]);
    EncodeOne(added[0]);
    Associates(Encode(before), line, more[..k - |line|]);
    AllRecordsPush(before, added[0]);
    Associates(before, [added[0]], Survived(added[1..], k - |line|));
  }

  lemma AllRecordsPush(before: seq<string>, r: string)
    requires AllRecords(before) && RecordText(r)
    ensures AllRecords(before + [r])
  {
  }

  lemma EncodeOne(r: string)
    ensures Encode([r]) == r + "\n"
  {
    var none: seq<string> := [r][1..];
    assert none == [] && r + "\n" + "" == r + "\n";
  }

  lemma CutApart(a: string, b: string, k: nat)
    requires |a| <= k <= |a| + |b|
    ensures (a + b)[..k] == a + b[..k - |a|]
  {
  }

  lemma Empty()
    ensures RecordText("{}")
  {
    assert SkipWs("}") == "}" && "{}"[1..] == "}" && "}"[1..] == "";
  }

  /** A session appends these records and is killed after so many bytes. */
  datatype Round = Round(added: seq<string>, bytes: nat)

  /** The records of one round whose final brace reached the file; a repair spends a byte on the newline it owes. */
  function Added(f: string, round: Round): seq<string> { Survived(round.added, round.bytes - |Ending(Kept(f))|) }

  /** One session, killed anywhere: the records it found, then those of its own whose final brace survived. */
  lemma SessionKeeps(f: string, records: seq<string>, round: Round)
    requires Holds(f, records) && AllRecords(round.added)
    ensures Holds(Session(f, round.added, round.bytes), records + Added(f, round))
  {
    RepairIs(f, records);
    Resume(Kept(f), records, round.added, round.bytes);
  }

  lemma Resume(base: string, records: seq<string>, added: seq<string>, k: nat)
    requires Holds(base, records) && AllRecords(records) && AllRecords(added) && base + Ending(base) == Encode(records)
    ensures Holds(base + Prefix(Written(base, added), k), records + Survived(added, k - |Ending(base)|))
  {
    if k < |Ending(base)| {
      NothingReached(base, added, k);
      NothingSurvives(records, added, k - |Ending(base)|);
    } else {
      ResumeReached(base, records, added, k);
    }
  }

  lemma NothingSurvives(records: seq<string>, added: seq<string>, k: int)
    requires k < 0
    ensures records + Survived(added, k) == records
  {
  }

  lemma ResumeReached(base: string, records: seq<string>, added: seq<string>, k: nat)
    requires AllRecords(records) && AllRecords(added) && base + Ending(base) == Encode(records) && k >= |Ending(base)|
    ensures Holds(base + Prefix(Written(base, added), k), records + Survived(added, k - |Ending(base)|))
  {
    var m := k - |Ending(base)|;
    var n := if m <= |Encode(added)| then m else |Encode(added)|;
    Reaches(base, records, added, k, n);
    CutHolds(records, added, n);
    SurvivedAll(added, m, n);
  }

  lemma NothingReached(base: string, added: seq<string>, k: nat)
    requires k < |Ending(base)|
    ensures base + Prefix(Written(base, added), k) == base
  {
    assert k == 0 && Written(base, added)[..0] == "" && base + "" == base;
  }

  lemma Reaches(base: string, records: seq<string>, added: seq<string>, k: nat, n: nat)
    requires base + Ending(base) == Encode(records) && |Ending(base)| <= k
    requires n == if k - |Ending(base)| <= |Encode(added)| then k - |Ending(base)| else |Encode(added)|
    ensures base + Prefix(Written(base, added), k) == Encode(records) + Encode(added)[..n]
  {
    var ending := Ending(base);
    assert Prefix(Written(base, added), k) == ending + Encode(added)[..n];
    assert base + (ending + Encode(added)[..n]) == base + ending + Encode(added)[..n];
  }

  /** Bytes past the end of the text bring no more records. */
  lemma {:induction false} SurvivedAll(added: seq<string>, k: int, n: nat)
    requires n <= |Encode(added)| && (k == n || (n == |Encode(added)| && k >= n))
    ensures Survived(added, k) == Survived(added, n)
    decreases |added|
  {
    if added != [] && k != n { SurvivedAll(added[1..], k - |added[0]| - 1, n - |added[0]| - 1); }
  }

  // ----- any number of rounds -----

  /** The file after the rounds. */
  function Rounds(f: string, rounds: seq<Round>): string
    decreases |rounds|
  {
    if rounds == [] then f else Rounds(Session(f, rounds[0].added, rounds[0].bytes), rounds[1..])
  }

  function SurvivedRounds(f: string, rounds: seq<Round>): seq<string>
    decreases |rounds|
  {
    if rounds == [] then [] else
      Added(f, rounds[0]) + SurvivedRounds(Session(f, rounds[0].added, rounds[0].bytes), rounds[1..])
  }

  predicate RoundsWrite(rounds: seq<Round>) { forall i :: 0 <= i < |rounds| ==> AllRecords(rounds[i].added) }

  lemma {:induction false} RoundsHold(f: string, records: seq<string>, rounds: seq<Round>)
    requires Holds(f, records) && RoundsWrite(rounds)
    ensures Holds(Rounds(f, rounds), records + SurvivedRounds(f, rounds))
    decreases |rounds|
  {
    if rounds == [] {
      assert records + [] == records;
    } else {
      var g, kept := Session(f, rounds[0].added, rounds[0].bytes), Added(f, rounds[0]);
      SessionKeeps(f, records, rounds[0]);
      RoundsHold(g, records + kept, rounds[1..]);
      Associates(records, kept, SurvivedRounds(g, rounds[1..]));
    }
  }

  /** From an empty receipt, after any number of sessions each killed at any byte, reading gives exactly the
      records whose final brace was written, in order, and never reports damage. */
  lemma RoundsReadBack(rounds: seq<Round>)
    requires RoundsWrite(rounds)
    ensures var records := SurvivedRounds("", rounds);
      AllRecords(records) && ReadFile(Rounds("", rounds)).Receipt? &&
          ReadFile(Rounds("", rounds)).rows == Values(records)
  {
    Empty();
    HoldWhole([], "{}");
    RoundsHold("", [], rounds);
    RepairIs(Rounds("", rounds), [] + SurvivedRounds("", rounds));
    assert [] + SurvivedRounds("", rounds) == SurvivedRounds("", rounds);
  }

  /** A damaged record is reported exactly when a line that is not the unterminated last one does not parse. */
  lemma {:induction false} DamagedIff(lines: seq<string>)
    ensures ReadLines(lines).Damaged? <==>
      exists i :: 0 <= i < |lines| && !Blank(lines[i]) && Loads(lines[i]).None? &&
          (i < |lines| - 1 || Terminated(lines[i]))
  {
    if lines != [] {
      var rest := lines[1..];
      DamagedIff(rest);
      assert forall i :: 0 <= i < |rest| ==> rest[i] == lines[i + 1];
      if ReadLines(rest).Damaged? {
        var i :| 0 <= i < |rest| && !Blank(rest[i]) && Loads(rest[i]).None? && (i < |rest| - 1 || Terminated(rest[i]));
        assert !Blank(lines[i + 1]) && Loads(lines[i + 1]).None?;
      } else {
        assert forall i :: 1 <= i < |lines| ==> lines[i] == rest[i - 1];
      }
    }
  }

  lemma FollowFollow(a: seq<Json>, m: nat, b: seq<Json>, n: nat, r: Receipt)
    ensures Follow(a, m, Follow(b, n, r)) == Follow(a + b, m + n, r)
  {
    if r.Receipt? { assert a + (b + r.rows) == a + b + r.rows; }
  }

  function Less(left: nat, n: nat): nat { if n <= left then left - n else 0 }

  /** What is still to be written after one more line. */
  lemma NextLine(written: string, added: seq<string>, i: nat, left: nat)
    requires i < |added|
    ensures var line := added[i] + "\n";
      written + Prefix(Encode(added[i..]), left) ==
        written + Prefix(line, left) + Prefix(Encode(added[i + 1..]), Less(left, |line|))
  {
    assert added[i..][1..] == added[i + 1..];
    PrefixOfTwo(added[i] + "\n", Encode(added[i + 1..]), left);
    Associates(written, Prefix(added[i] + "\n", left), Prefix(Encode(added[i + 1..]), Less(left, |added[i] + "\n"|)));
  }

  lemma PrefixOfTwo(a: string, b: string, n: nat)
    ensures Prefix(a + b, n) == Prefix(a, n) + Prefix(b, Less(n, |a|))
  {
    assert b[..|b|] == b;
  }

  lemma EndingFirst(base: string, added: seq<string>, budget: nat)
    ensures NeedsEnd(base) ==>
      base + Prefix(Written(base, added), budget)
          == base + Prefix("\n", budget) + Prefix(Encode(added), Less(budget, 1))
    ensures !NeedsEnd(base) ==> Written(base, added) == Encode(added)
  {
    if NeedsEnd(base) {
      PrefixOfTwo("\n", Encode(added), budget);
      Associates(base, Prefix("\n", budget), Prefix(Encode(added), Less(budget, 1)));
    }
  }

  /** The receipt file, truncated and extended in place. */
  class ReceiptFile {
    var bytes: string

    constructor ()
      ensures bytes == ""
    { bytes := ""; }

    method ReadReceipt() returns (receipt: Receipt)
      ensures receipt == ReadFile(bytes)
    {
      var lines := SplitLines(bytes);
      var rows: seq<Json>, complete := [], 0;
      var index := 0;
      while index < |lines|
        invariant 0 <= index <= |lines| && complete >= 0
        invariant Follow(rows, complete, ReadLines(lines[index..])) == ReadFile(bytes)
      {
        var line := lines[index];
        assert lines[index..][0] == line && lines[index..][1..] == lines[index + 1..];
        if Blank(line) {
          FollowFollow(rows, complete, [], |line|, ReadLines(lines[index + 1..]));
          assert rows + [] == rows;
        } else {
          var row := Loads(line);
          if row.None? {
            if index != |lines| - 1 || Terminated(line) { return Damaged; }
            assert lines[index + 1..] == [] && rows + [] == rows;
            return Receipt(rows, complete);
          }
          FollowFollow(rows, complete, [row.value], |line|, ReadLines(lines[index + 1..]));
          rows := rows + [row.value];
        }
        complete := complete + |line|;
        index := index + 1;
      }
      assert lines[index..] == [] && rows + [] == rows;
      receipt := Receipt(rows, complete);
    }

    /** Truncates to the complete bytes, ends the last line, then appends line by line; a kill stops it after
        `budget` bytes.  A damaged receipt stops it before it changes anything. */
    method AppendReceipt(added: seq<string>, budget: nat) returns (begun: bool)
      modifies this
      ensures begun <==> ReadFile(old(bytes)).Receipt?
      ensures !begun ==> bytes == old(bytes)
      ensures begun ==> bytes == Session(old(bytes), added, budget)
    {
      var receipt := ReadReceipt();
      if receipt.Damaged? { return false; }
      CompleteBound(SplitLines(bytes));
      SplitCovers(bytes);
      bytes := bytes[..receipt.complete];
      Append(added, budget);
      begun := true;
    }

    method Append(added: seq<string>, budget: nat)
      modifies this
      ensures bytes == old(bytes) + Prefix(Written(old(bytes), added), budget)
    {
      EndingFirst(bytes, added, budget);
      var left := budget;
      if NeedsEnd(bytes) { left := Write("\n", left); }
      WriteLines(added, left);
    }

    /** Line by line, as far as the budget lets it. */
    method WriteLines(added: seq<string>, budget: nat)
      modifies this
      ensures bytes == old(bytes) + Prefix(Encode(added), budget)
    {
      ghost var target := bytes + Prefix(Encode(added), budget);
      var left := budget;
      assert added[0..] == added;
      var i := 0;
      while i < |added| && left > 0
        invariant 0 <= i <= |added| && 0 <= left
        invariant bytes + Prefix(Encode(added[i..]), left) == target
      {
        NextLine(bytes, added, i, left);
        left := Write(added[i] + "\n", left);
        i := i + 1;
      }
      assert Prefix(Encode(added[i..]), left) == "";
    }

    method Write(text: string, budget: nat) returns (left: nat)
      modifies this
      ensures bytes == old(bytes) + Prefix(text, budget) && left == Less(budget, |text|)
    {
      if |text| <= budget {
        bytes := bytes + text;
        assert text[..|text|] == text;
        return budget - |text|;
      }
      bytes := bytes + text[..budget];
      left := 0;
    }
  }

  function Total(lines: seq<string>): nat { if lines == [] then 0 else |lines[0]| + Total(lines[1..]) }

  lemma {:induction false} CompleteBound(lines: seq<string>)
    ensures ReadLines(lines).Receipt? ==> ReadLines(lines).complete <= Total(lines)
  {
    if lines != [] { CompleteBound(lines[1..]); }
  }

  lemma {:induction false} SplitCovers(t: string)
    ensures Total(SplitLines(t)) == |t|
    decreases |t|
  {
    if t != "" {
      SplitCovers(t[LineLength(t)..]);
      assert SplitLines(t)[1..] == SplitLines(t[LineLength(t)..]);
    }
  }
}
