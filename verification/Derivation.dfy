/** Deriving a keyed state: what is frozen of a batch, and what it publishes. */
module Derivation {
  // A batch becomes a digest for retries, a spool of rows and a list of edits.

  import opened Prelude
  import opened Ordering
  import Framing
  import Revision

  type Bytes = seq<int>
  type Edit = Revision.Edit<string, string>
  type Members = map<string, string>

  const BATCH_BYTES := 8 * 1024 * 1024
  const KEY_LIMIT := 0x1_0000_0000
  const NEWLINE := 10

  /** JSON values by their canonical encoder: `str` and `arr` build values, `enc` gives their bytes. */
  datatype Codec<!V> = Codec(
    str: string -> V,
    arr: seq<V> -> V,
    enc: V -> Bytes,
    record: Edit -> V,
    utf8: string -> Bytes,
    decode: Bytes -> string,
    occurrence: string -> string,
    payload: (string, Bytes) -> Bytes)

  function Encoded<V>(c: Codec<V>, items: seq<V>): (r: seq<Bytes>)
    ensures |r| == |items| && forall i :: 0 <= i < |r| ==> r[i] == c.enc(items[i])
  {
    seq(|items|, i requires 0 <= i < |items| => c.enc(items[i]))
  }

  /** Items with a comma between them. */
  function Join(items: seq<Bytes>): Bytes {
    if items == [] then [] else if |items| == 1 then items[0] else items[0] + [44] + Join(items[1..])
  }

  function ArrayBytes(items: seq<Bytes>): Bytes { [91] + Join(items) + [93] }

  ghost predicate Lawful<V(!new)>(c: Codec<V>) {
    && (forall v, w :: c.enc(v) == c.enc(w) ==> v == w)
    && (forall v :: NEWLINE !in c.enc(v))
    && (forall items :: c.enc(c.arr(items)) == ArrayBytes(Encoded(c, items)))
    && (forall a, b :: c.str(a) == c.str(b) ==> a == b)
    && (forall a, b :: c.arr(a) == c.arr(b) ==> a == b)
    && (forall k :: c.decode(c.utf8(k)) == k)
  }

  /** A supplied row; a key that is no string and a value outside the codec are absent. */
  datatype Row<V> = Row(key: Option<string>, value: Option<V>)

  predicate Good<V>(r: Row<V>) { r.key.Some? && r.value.Some? }

  predicate AllGood<V>(rows: seq<Row<V>>) { forall i :: 0 <= i < |rows| ==> Good(rows[i]) }

  // ----- the retry digest -----

  function RowValue<V>(c: Codec<V>, r: Row<V>): V
    requires Good(r)
  {
    c.arr([c.str(r.key.value), r.value.value])
  }

  function Lines<V>(c: Codec<V>, rows: seq<Row<V>>): Bytes
    requires AllGood(rows)
  {
    if rows == [] then [] else Lines(c, rows[..|rows| - 1]) + (c.enc(RowValue(c, rows[|rows| - 1])) + [NEWLINE])
  }

  function Strings<V>(c: Codec<V>, names: seq<string>): (r: seq<V>)
    ensures |r| == |names| && forall i :: 0 <= i < |r| ==> r[i] == c.str(names[i])
  {
    seq(|names|, i requires 0 <= i < |names| => c.str(names[i]))
  }

  function RemovalsValue<V>(c: Codec<V>, removals: set<string>): V {
    c.arr([c.str("removals"), c.arr(Strings(c, Sorted(removals)))])
  }

  /** What the retry identity is a digest of. */
  function DigestInput<V>(c: Codec<V>, rows: seq<Row<V>>, removals: set<string>): Bytes
    requires AllGood(rows)
  {
    Lines(c, rows) + (c.enc(RemovalsValue(c, removals)) + [NEWLINE])
  }

  /** The lines from the front, each ended by its newline. */
  function Ended(lines: seq<Bytes>): Bytes { if lines == [] then [] else lines[0] + [NEWLINE] + Ended(lines[1..]) }

  lemma {:induction false} EndedInjective(a: seq<Bytes>, b: seq<Bytes>)
    requires Ended(a) == Ended(b) && (forall i :: 0 <= i < |a| ==> NEWLINE !in a[i]) && forall i :: 0 <= i < |b| ==>
        NEWLINE !in b[i]
    ensures a == b
  {
    if a != [] && b != [] {
      Framing.MarkSplits(NEWLINE, a[0], Ended(a[1..]), b[0], Ended(b[1..]));
      EndedInjective(a[1..], b[1..]);
      assert a == [a[0]] + a[1..] && b == [b[0]] + b[1..];
    }
  }

  lemma {:induction false} EndedAppends(a: seq<Bytes>, line: Bytes)
    ensures Ended(a + [line]) == Ended(a) + (line + [NEWLINE])
  {
    if a == [] {
      assert a + [line] == [line] && [line][1..] == [];
      assert Ended([line]) == line + [NEWLINE] + Ended([]);
    } else {
      assert (a + [line])[1..] == a[1..] + [line];
      EndedAppends(a[1..], line);
    }
  }

  function RowLines<V>(c: Codec<V>, rows: seq<Row<V>>): (r: seq<Bytes>)
    requires AllGood(rows)
    ensures |r| == |rows| && forall i :: 0 <= i < |r| ==> r[i] == c.enc(RowValue(c, rows[i]))
  {
    seq(|rows|, i requires 0 <= i < |rows| => c.enc(RowValue(c, rows[i])))
  }

  lemma {:induction false} LinesEnded<V>(c: Codec<V>, rows: seq<Row<V>>)
    requires AllGood(rows)
    ensures Lines(c, rows) == Ended(RowLines(c, rows))
  {
    if rows != [] {
      var n := |rows| - 1;
      LinesEnded(c, rows[..n]);
      assert RowLines(c, rows) == RowLines(c, rows[..n]) + [c.enc(RowValue(c, rows[n]))];
      EndedAppends(RowLines(c, rows[..n]), c.enc(RowValue(c, rows[n])));
    }
  }

  function AllLines<V>(c: Codec<V>, rows: seq<Row<V>>, removals: set<string>): seq<Bytes>
    requires AllGood(rows)
  {
    RowLines(c, rows) + [c.enc(RemovalsValue(c, removals))]
  }

  lemma DigestLines<V(!new)>(c: Codec<V>, rows: seq<Row<V>>, removals: set<string>)
    requires Lawful(c) && AllGood(rows)
    ensures DigestInput(c, rows, removals) == Ended(AllLines(c, rows, removals))
    ensures forall i :: 0 <= i < |AllLines(c, rows, removals)| ==> NEWLINE !in AllLines(c, rows, removals)[i]
  {
    LinesEnded(c, rows);
    EndedAppends(RowLines(c, rows), c.enc(RemovalsValue(c, removals)));
  }

  /** The digest is taken of one batch alone: the ordered rows and the set of removals. */
  lemma DigestDetermines<V(!new)>(c: Codec<V>, a: seq<Row<V>>, x: set<string>, b: seq<Row<V>>, y: set<string>)
    requires Lawful(c) && AllGood(a) && AllGood(b)
    ensures DigestInput(c, a, x) == DigestInput(c, b, y) <==> a == b && x == y
  {
    if DigestInput(c, a, x) == DigestInput(c, b, y) {
      DigestLines(c, a, x);
      DigestLines(c, b, y);
      EndedInjective(AllLines(c, a, x), AllLines(c, b, y));
      SameLines(c, a, x, b, y);
    }
  }

  lemma SameLines<V(!new)>(c: Codec<V>, a: seq<Row<V>>, x: set<string>, b: seq<Row<V>>, y: set<string>)
    requires Lawful(c) && AllGood(a) && AllGood(b) && AllLines(c, a, x) == AllLines(c, b, y)
    ensures a == b && x == y
  {
    var s, t := AllLines(c, a, x), AllLines(c, b, y);
    assert s[|a|] == c.enc(RemovalsValue(c, x)) && t[|b|] == c.enc(RemovalsValue(c, y)) && |s| == |t|;
    SameRemovals(c, x, y);
    forall i | 0 <= i < |a| ensures a[i] == b[i] {
      assert s[i] == c.enc(RowValue(c, a[i])) && t[i] == c.enc(RowValue(c, b[i]));
      SameRow(c, a[i], b[i]);
    }
  }

  lemma SameRow<V(!new)>(c: Codec<V>, a: Row<V>, b: Row<V>)
    requires Lawful(c) && Good(a) && Good(b) && RowValue(c, a) == RowValue(c, b)
    ensures a == b
  {
    PairInjective(c, c.str(a.key.value), a.value.value, c.str(b.key.value), b.value.value);
  }

  lemma PairInjective<V(!new)>(c: Codec<V>, a: V, b: V, x: V, y: V)
    requires Lawful(c) && c.arr([a, b]) == c.arr([x, y])
    ensures a == x && b == y
  {
    var p, q := [a, b], [x, y];
    assert p[0] == q[0] && p[1] == q[1];
  }

  lemma SameRemovals<V(!new)>(c: Codec<V>, x: set<string>, y: set<string>)
    requires Lawful(c) && RemovalsValue(c, x) == RemovalsValue(c, y)
    ensures x == y
  {
    var s, t := Strings(c, Sorted(x)), Strings(c, Sorted(y));
    PairInjective(c, c.str("removals"), c.arr(s), c.str("removals"), c.arr(t));
    StringsInjective(c, Sorted(x), Sorted(y));
    SortedTells(x, y);
  }

  lemma StringsInjective<V(!new)>(c: Codec<V>, a: seq<string>, b: seq<string>)
    requires Lawful(c) && Strings(c, a) == Strings(c, b)
    ensures a == b
  {
    assert |Strings(c, a)| == |Strings(c, b)|;
    forall i | 0 <= i < |a| ensures a[i] == b[i] { assert Strings(c, a)[i] == Strings(c, b)[i]; }
  }

  lemma SortedTells(x: set<string>, y: set<string>)
    requires Sorted(x) == Sorted(y)
    ensures x == y
  {
    var s := Sorted(x);
    assert forall k :: k in x <==> k in s;
    assert forall k :: k in y <==> k in s;
  }

  // ----- the spool -----

  datatype Entry = Entry(key: string, payload: Bytes)

  predicate Fits<V>(c: Codec<V>, e: Entry) { |c.utf8(e.key)| < KEY_LIMIT && |e.payload| < KEY_LIMIT }

  function Framed<V>(c: Codec<V>, e: Entry): Bytes {
    Framing.Be(|c.utf8(e.key)|, 4) + Framing.Be(|e.payload|, 4) + (c.utf8(e.key) + e.payload)
  }

  function Spool<V>(c: Codec<V>, entries: seq<Entry>): Bytes {
    if entries == [] then [] else Framed(c, entries[0]) + Spool(c, entries[1..])
  }

  lemma {:induction false} SpoolAppends<V>(c: Codec<V>, entries: seq<Entry>, e: Entry)
    ensures Spool(c, entries + [e]) == Spool(c, entries) + Framed(c, e)
  {
    if entries == [] {
      assert entries + [e] == [e] && [e][1..] == [];
    } else {
      assert (entries + [e])[1..] == entries[1..] + [e];
      SpoolAppends(c, entries[1..], e);
    }
  }

  lemma FrameReads<V>(c: Codec<V>, e: Entry, rest: Bytes)
    requires Fits(c, e)
    ensures var s, k, p := Framed(c, e) + rest, |c.utf8(e.key)|, |e.payload|;
      && |s| >= 8 + k + p && Framing.FromBe(s[..4]) == k && Framing.FromBe(s[4..8]) == p
      && s[8..8 + k] == c.utf8(e.key) && s[8 + k..8 + k + p] == e.payload && s[8 + k + p..] == rest
  {
    var s, k, p := Framed(c, e) + rest, |c.utf8(e.key)|, |e.payload|;
    assert Framing.Power(4) == KEY_LIMIT by { assert Framing.Power(2) == 0x1_0000; }
    Framing.BeReads(k, 4);
    Framing.BeReads(p, 4);
    assert s[..4] == Framing.Be(k, 4) && s[4..8] == Framing.Be(p, 4);
  }

  /** Reading the spool from the start, frame by frame, until nothing is left. */
  method ReplaySpool<V(!new)>(c: Codec<V>, spool: Bytes, ghost entries: seq<Entry>) returns (r: seq<Entry>)
    requires Lawful(c) && spool == Spool(c, entries) && forall i :: 0 <= i < |entries| ==> Fits(c, entries[i])
    ensures r == entries
  {
    r := [];
    var rest := spool;
    ghost var n := 0;
    assert entries[0..] == entries;
    while rest != []
      invariant 0 <= n <= |entries| && r == entries[..n] && rest == Spool(c, entries[n..])
      decreases |rest|
    {
      ghost var e := entries[n..][0];
      assert entries[n..][1..] == entries[n + 1..];
      FrameReads(c, e, Spool(c, entries[n + 1..]));
      var keySize, payloadSize := Framing.FromBe(rest[..4]), Framing.FromBe(rest[4..8]);
      var key := c.decode(rest[8..8 + keySize]);
      r := r + [Entry(key, rest[8 + keySize..8 + keySize + payloadSize])];
      rest := rest[8 + keySize + payloadSize..];
      n := n + 1;
    }
    SpoolSize(c, entries[n..]);
  }

  lemma {:induction false} SpoolSize<V>(c: Codec<V>, entries: seq<Entry>)
    ensures |Spool(c, entries)| >= 8 * |entries|
  {
    if entries != [] { SpoolSize(c, entries[1..]); }
  }

  // ----- edits -----

  function PutOf<V>(c: Codec<V>, rows: seq<Row<V>>, i: nat): Edit
    requires AllGood(rows) && i < |rows|
  {
    Revision.Edit(i, rows[i].key.value, Revision.Put(c.occurrence(rows[i].key.value)))
  }

  /** A put for each row in order, then a removal for each key removed, numbered as they come. */
  function EditsOf<V>(c: Codec<V>, rows: seq<Row<V>>, removals: seq<string>): (r: seq<Edit>)
    requires AllGood(rows)
    ensures |r| == |rows| + |removals|
    ensures forall i :: 0 <= i < |rows| ==> r[i] == PutOf(c, rows, i)
    ensures forall i :: 0 <= i < |removals| ==> r[|rows| + i] == Revision.Edit(|rows| + i, removals[i], Revision.Remove)
  {
    seq(|rows|, i requires 0 <= i < |rows| => PutOf(c, rows, i))
    + seq(|removals|, i requires 0 <= i < |removals| => Revision.Edit(|rows| + i, removals[i], Revision.Remove))
  }

  /** The running size: two for the brackets, and each edit with one more byte. */
  function EditBytes<V>(c: Codec<V>, edits: seq<Edit>): nat {
    if edits == [] then 2 else EditBytes(c, edits[..|edits| - 1]) + |c.enc(c.record(edits[|edits| - 1]))| + 1
  }

  function Records<V>(c: Codec<V>, edits: seq<Edit>): (r: seq<V>)
    ensures |r| == |edits| && forall i :: 0 <= i < |r| ==> r[i] == c.record(edits[i])
  {
    seq(|edits|, i requires 0 <= i < |edits| => c.record(edits[i]))
  }

  lemma {:induction false} JoinAppends(items: seq<Bytes>, last: Bytes)
    ensures |Join(items + [last])| == |Join(items)| + |last| + if items == [] then 0 else 1
  {
    if items == [] {
      assert items + [last] == [last];
    } else {
      assert (items + [last])[1..] == items[1..] + [last];
      JoinAppends(items[1..], last);
    }
  }

  /** The running size is the size of the encoded array of edits, with one byte to spare once there is an edit. */
  lemma {:induction false} EditBytesBound<V(!new)>(c: Codec<V>, edits: seq<Edit>)
    requires Lawful(c)
    ensures EditBytes(c, edits) == |c.enc(c.arr(Records(c, edits)))| + if edits == [] then 0 else 1
    decreases |edits|
  {
    var all := Encoded(c, Records(c, edits));
    if edits == [] {
      assert Join(all) == [];
    } else {
      var n := |edits| - 1;
      EditBytesBound(c, edits[..n]);
      var front := Encoded(c, Records(c, edits[..n]));
      assert all == front + [c.enc(c.record(edits[n]))];
      JoinAppends(front, c.enc(c.record(edits[n])));
    }
  }

  // ----- the members published -----

  function KeysOf<V>(rows: seq<Row<V>>): set<string> {
    set i | 0 <= i < |rows| && rows[i].key.Some? :: rows[i].key.value
  }

  predicate DistinctKeys<V>(rows: seq<Row<V>>) {
    forall i, j :: 0 <= i < j < |rows| && rows[i].key.Some? && rows[j].key.Some? ==> rows[i].key != rows[j].key
  }

  /** The rows as members, each under its own occurrence. */
  function RowMembers<V>(c: Codec<V>, rows: seq<Row<V>>): Members { map k | k in KeysOf(rows) :: c.occurrence(k) }

  lemma {:induction false} PutsApply<V(!new)>(c: Codec<V>, base: Members, rows: seq<Row<V>>)
    requires AllGood(rows)
    ensures Revision.Replay(base, EditsOf(c, rows, [])) == Some(base + RowMembers(c, rows))
    decreases |rows|
  {
    if rows == [] {
      assert base + RowMembers(c, rows) == base;
    } else {
      var n := |rows| - 1;
      PutsApply(c, base, rows[..n]);
      assert EditsOf(c, rows, []) == EditsOf(c, rows[..n], []) + [PutOf(c, rows, n)];
      ReplayNext(base, EditsOf(c, rows[..n], []), PutOf(c, rows, n));
      PutsOne(c, base, rows);
    }
  }

  lemma PutsOne<V>(c: Codec<V>, base: Members, rows: seq<Row<V>>)
    requires AllGood(rows) && rows != []
    ensures var n := |rows| - 1;
      (base + RowMembers(c, rows[..n]))[rows[n].key.value := c.occurrence(rows[n].key.value)]
          == base + RowMembers(c, rows)
  {
    KeysGrow(rows);
  }

  lemma KeysGrow<V>(rows: seq<Row<V>>)
    requires rows != [] && AllGood(rows)
    ensures KeysOf(rows) == KeysOf(rows[..|rows| - 1]) + {rows[|rows| - 1].key.value}
  {
    var n := |rows| - 1;
    forall k ensures k in KeysOf(rows) <==> k in KeysOf(rows[..n]) || k == rows[n].key.value {
      if k in KeysOf(rows) && k != rows[n].key.value {
        var i :| 0 <= i < |rows| && rows[i].key.value == k;
        assert rows[..n][i].key.value == k;
      }
      if k in KeysOf(rows[..n]) {
        var i :| 0 <= i < n && rows[..n][i].key.value == k;
        assert rows[i].key.value == k;
      }
    }
  }

  /** With a base: the base without the removals, overridden by the rows.  A removal of a key the base does not have
      fails the whole derivation, and nothing else does. */
  lemma {:induction false} DerivedMembers<V(!new)>(c: Codec<V>, base: Members, rows: seq<Row<V>>, removals: seq<string>)
    requires AllGood(rows) && AllDistinct(removals) && KeysOf(rows) !! Elements(removals)
    ensures Revision.Replay(base, EditsOf(c, rows, removals)) ==
      if Elements(removals) <= base.Keys then Some((base - Elements(removals)) + RowMembers(c, rows)) else None
    decreases |removals|
  {
    if removals == [] {
      PutsApply(c, base, rows);
      assert base - Elements(removals) == base;
    } else {
      var n := |removals| - 1;
      var front, k := removals[..n], removals[n];
      ElementsLast(removals);
      DerivedMembers(c, base, rows, front);
      assert removals[..n + 1] == removals;
      NextRemoval(c, rows, removals, n);
      ReplayNext(base, EditsOf(c, rows, front), Revision.Edit(|rows| + n, k, Revision.Remove));
      RemovesOne(base, Elements(front), k, RowMembers(c, rows));
    }
  }

  lemma ElementsLast(names: seq<string>)
    requires names != [] && AllDistinct(names)
    ensures var front, k := names[..|names| - 1], names[|names| - 1];
      Elements(names) == Elements(front) + {k} && k !in Elements(front) && AllDistinct(front)
  {
  }

  lemma ReplayNext(base: Members, edits: seq<Edit>, e: Edit)
    ensures Revision.Replay(base, edits + [e]) == match Revision.Replay(base, edits) case None => None case Some(m) =>
        Revision.Step(m, e)
  {
    assert (edits + [e])[..|edits|] == edits;
  }

  lemma RemovesOne(base: Members, gone: set<string>, k: string, rows: Members)
    requires k !in gone && k !in rows
    ensures var m := (base - gone) + rows; (k in m <==> k in base) && m - {k} == (base - (gone + {k})) + rows
  {
  }

  /** A member no row and no removal mentions keeps its occurrence. */
  lemma UnmentionedKept<V(!new)>(c: Codec<V>, base: Members, rows: seq<Row<V>>, removals: seq<string>, m: Members,
      k: string)
    requires AllGood(rows) && AllDistinct(removals) && KeysOf(rows) !! Elements(removals)
    requires Revision.Replay(base, EditsOf(c, rows, removals)) == Some(m)
    ensures k !in KeysOf(rows) && k !in Elements(removals) ==> Get(m, k) == Get(base, k)
    ensures k in KeysOf(rows) ==> Get(m, k) == Some(c.occurrence(k))
    ensures k in Elements(removals) ==> k !in m
  {
    DerivedMembers(c, base, rows, removals);
  }

  /** The members a keyed import of the spool's entries makes, each under its own occurrence. */
  function Imported<V>(c: Codec<V>, entries: seq<Entry>): Members {
    map k | k in (set i | 0 <= i < |entries| :: entries[i].key) :: c.occurrence(k)
  }

  /** Without a base exactly the rows: an admissible batch removes nothing, and importing its spool makes each row a
      member under its own occurrence, and no other. */
  lemma FreshMembers<V>(c: Codec<V>, rows: seq<Row<V>>, removals: seq<Option<string>>, hasDataset: bool)
    requires Admissible(c, rows, removals, false, hasDataset)
    ensures removals == [] && AllGood(rows)
    ensures Imported(c, EntriesOf(c, rows)) == RowMembers(c, rows)
    ensures RowMembers(c, rows).Keys == KeysOf(rows) && |RowMembers(c, rows)| == |rows|
  {
    var entries := EntriesOf(c, rows);
    var imported := set i | 0 <= i < |entries| :: entries[i].key;
    forall k ensures k in imported <==> k in KeysOf(rows) {
      if k in imported {
        var i :| 0 <= i < |entries| && entries[i].key == k;
        assert rows[i].key == Some(k);
      }
      if k in KeysOf(rows) {
        var i :| 0 <= i < |rows| && rows[i].key == Some(k);
        assert entries[i].key == k;
      }
    }
    assert imported == KeysOf(rows) && RowMembers(c, rows).Keys == KeysOf(rows);
    OneKeyEach(rows);
  }

  lemma {:induction false} OneKeyEach<V>(rows: seq<Row<V>>)
    requires AllGood(rows) && DistinctKeys(rows)
    ensures |KeysOf(rows)| == |rows|
  {
    if rows != [] {
      var n := |rows| - 1;
      var front, k := rows[..n], rows[n].key.value;
      OneKeyEach(front);
      KeysGrow(rows);
      assert k !in KeysOf(front);
    }
  }

  // ----- the batch -----

  datatype Error =
    | NoBase | NotString | DuplicateKey | OutsideCodec | RecordTooLarge | KeyTooLarge | EditsTooLarge
    | BadRemovals | RemovalIsPut | EmptyBatch

  datatype Frozen = Frozen(digestInput: Bytes, spool: Bytes, edits: seq<Edit>)

  function EntryOf<V>(c: Codec<V>, r: Row<V>): Entry
    requires Good(r)
  {
    Entry(r.key.value, c.payload(c.occurrence(r.key.value), c.enc(r.value.value)))
  }

  function EntriesOf<V>(c: Codec<V>, rows: seq<Row<V>>): (r: seq<Entry>)
    requires AllGood(rows)
    ensures |r| == |rows| && forall i :: 0 <= i < |r| ==> r[i] == EntryOf(c, rows[i])
  {
    seq(|rows|, i requires 0 <= i < |rows| => EntryOf(c, rows[i]))
  }

  predicate Storable<V>(c: Codec<V>, r: Row<V>) {
    Good(r) && |EntryOf(c, r).payload| <= BATCH_BYTES && |c.utf8(r.key.value)| < KEY_LIMIT
  }

  /** Rows that can be taken: good, storable, of distinct keys, and with a base within the edit bound. */
  predicate Takes<V>(c: Codec<V>, rows: seq<Row<V>>, hasBase: bool) {
    && (forall i :: 0 <= i < |rows| ==> Storable(c, rows[i]))
    && DistinctKeys(rows)
    && (hasBase ==> EditBytes(c, EditsOf(c, rows, [])) <= BATCH_BYTES)
  }

  predicate AllStrings(names: seq<Option<string>>) { forall i :: 0 <= i < |names| ==> names[i].Some? }

  function Names(names: seq<Option<string>>): (r: seq<string>)
    requires AllStrings(names)
    ensures |r| == |names| && forall i :: 0 <= i < |r| ==> r[i] == names[i].value
  {
    seq(|names|, i requires 0 <= i < |names| => names[i].value)
  }

  /** What a batch must be to be frozen. */
  predicate Admissible<V>(c: Codec<V>, rows: seq<Row<V>>, removals: seq<Option<string>>, hasBase: bool,
      hasDataset: bool) {
    && (!hasBase ==> !hasDataset && removals == [])
    && Takes(c, rows, hasBase)
    && AllStrings(removals) && AllDistinct(Names(removals)) && KeysOf(rows) !! Elements(Names(removals))
    && (hasBase ==> EditBytes(c, EditsOf(c, rows, Names(removals))) <= BATCH_BYTES)
    && (rows != [] || removals != [])
  }

  /** A batch as it is frozen, row by row. */
  class Batch<V(!new)> {
    const c: Codec<V>
    const hasBase: bool
    var digest: Bytes
    var spool: Bytes
    var keys: set<string>
    var edits: seq<Edit>
    var editBytes: nat

    constructor (c: Codec<V>, hasBase: bool)
      ensures this.c == c && this.hasBase == hasBase && Holds([])
    {
      this.c, this.hasBase := c, hasBase;
      digest, spool, keys, edits, editBytes := [], [], {}, [], 2;
    }

    /** These rows have been taken. */
    ghost predicate Holds(rows: seq<Row<V>>)
      reads this
    {
      && Takes(c, rows, hasBase) && AllGood(rows)
      && digest == Lines(c, rows) && spool == Spool(c, EntriesOf(c, rows)) && keys == KeysOf(rows)
      && edits == (if hasBase then EditsOf(c, rows, []) else []) && editBytes == EditBytes(c, edits)
    }

    /** One more edit, if it stays within the bound. */
    method AddEdit(e: Edit) returns (within: bool)
      requires editBytes == EditBytes(c, edits)
      modifies this`edits, this`editBytes
      ensures within <==> EditBytes(c, old(edits) + [e]) <= BATCH_BYTES
      ensures editBytes == EditBytes(c, old(edits) + [e])
      ensures edits == if within then old(edits) + [e] else old(edits)
    {
      assert (edits + [e])[..|edits|] == edits;
      editBytes := editBytes + |c.enc(c.record(e))| + 1;
      if editBytes > BATCH_BYTES { return false; }
      edits := edits + [e];
      within := true;
    }

    /** What is wrong with a row by itself, or against the keys taken. */
    method CheckRow(r: Row<V>) returns (fault: Option<Error>)
      ensures fault.None? <==> Storable(c, r) && r.key.value !in keys
    {
      if r.key.None? { return Some(NotString); }
      if r.key.value in keys { return Some(DuplicateKey); }
      if r.value.None? { return Some(OutsideCodec); }
      if |c.payload(c.occurrence(r.key.value), c.enc(r.value.value))| > BATCH_BYTES { return Some(RecordTooLarge); }
      if |c.utf8(r.key.value)| >= KEY_LIMIT { return Some(KeyTooLarge); }
      fault := None;
    }

    /** Feeds a row to the digest, the spool and the edits. */
    method StoreRow(r: Row<V>, ghost rows: seq<Row<V>>) returns (within: bool)
      requires Lawful(c) && Holds(rows) && Storable(c, r) && r.key.value !in keys
      modifies this
      ensures within <==> Takes(c, rows + [r], hasBase)
      ensures within ==> Holds(rows + [r])
    {
      RowAppends(c, rows, r, hasBase);
      TakesOne(c, rows, r, hasBase);
      Feed(r);
      within := true;
      if hasBase { within := AddEdit(Revision.Edit(|edits|, r.key.value, Revision.Put(c.occurrence(r.key.value)))); }
    }

    method Feed(r: Row<V>)
      requires Storable(c, r)
      modifies this`digest, this`spool, this`keys
      ensures digest == old(digest) + RowBytes(c, r) && spool == old(spool) + Framed(c, EntryOf(c, r)) &&
          keys == old(keys) + {r.key.value}
    {
      var key, value := r.key.value, c.enc(r.value.value);
      var payload := c.payload(c.occurrence(key), value);
      digest := digest + ([91] + c.enc(c.str(key)) + [44] + value + [93] + [NEWLINE]);
      spool := spool + (Framing.Be(|c.utf8(key)|, 4) + Framing.Be(|payload|, 4) + (c.utf8(key) + payload));
      keys := keys + {key};
    }

    /** Takes one more row, or says what is wrong with it. */
    method AddRow(r: Row<V>, ghost rows: seq<Row<V>>) returns (fault: Option<Error>)
      requires Lawful(c) && Holds(rows)
      modifies this
      ensures fault.None? <==> Takes(c, rows + [r], hasBase)
      ensures fault.None? ==> Holds(rows + [r])
    {
      TakesOne(c, rows, r, hasBase);
      fault := CheckRow(r);
      if fault.Some? { return; }
      var within := StoreRow(r, rows);
      fault := if within then None else Some(EditsTooLarge);
    }

    method AddNext(rows: seq<Row<V>>, n: nat) returns (fault: Option<Error>)
      requires Lawful(c) && n < |rows| && Holds(rows[..n])
      modifies this
      ensures fault.None? ==> Holds(rows[..n + 1])
      ensures fault.Some? ==> !Takes(c, rows, hasBase)
    {
      assert rows[..n + 1] == rows[..n] + [rows[n]];
      TakesPrefix(c, rows, n + 1, hasBase);
      fault := AddRow(rows[n], rows[..n]);
    }

    /** Takes all rows in order, and stops at the first that cannot be taken. */
    method AddRows(rows: seq<Row<V>>) returns (fault: Option<Error>)
      requires Lawful(c) && Holds([])
      modifies this
      ensures fault.None? <==> Takes(c, rows, hasBase)
      ensures fault.None? ==> Holds(rows)
    {
      var n := 0;
      assert rows[..0] == [];
      while n < |rows|
        invariant 0 <= n <= |rows| && Holds(rows[..n])
      {
        fault := AddNext(rows, n);
        if fault.Some? { return; }
        n := n + 1;
      }
      assert rows[..n] == rows;
      fault := None;
    }

    method AddRemoval(names: seq<string>, n: nat, ghost rows: seq<Row<V>>) returns (within: bool)
      requires AllGood(rows) && n < |names| && HoldsEdits(rows, names[..n])
      modifies this`edits, this`editBytes
      ensures within ==> HoldsEdits(rows, names[..n + 1])
      ensures !within ==> EditBytes(c, EditsOf(c, rows, names)) > BATCH_BYTES
    {
      var e := Revision.Edit(|edits|, names[n], Revision.Remove);
      NextRemovalFits(c, rows, names, n, edits, e);
      within := AddEdit(e);
    }

    /** Adds the removals after the rows. */
    method AddRemovals(names: seq<string>, ghost rows: seq<Row<V>>) returns (within: bool)
      requires Lawful(c) && Holds(rows) && hasBase
      modifies this`edits, this`editBytes
      ensures within <==> EditBytes(c, EditsOf(c, rows, names)) <= BATCH_BYTES
      ensures within ==> edits == EditsOf(c, rows, names)
    {
      var n := 0;
      assert names[..0] == [];
      while n < |names|
        invariant 0 <= n <= |names| && HoldsEdits(rows, names[..n])
      {
        within := AddRemoval(names, n, rows);
        if !within { return; }
        n := n + 1;
      }
      assert names[..n] == names;
      within := true;
    }

    ghost predicate HoldsEdits(rows: seq<Row<V>>, names: seq<string>)
      requires AllGood(rows)
      reads this
    {
      edits == EditsOf(c, rows, names) && editBytes == EditBytes(c, edits) <= BATCH_BYTES
    }
  }

  lemma NextRemoval<V>(c: Codec<V>, rows: seq<Row<V>>, names: seq<string>, n: nat)
    requires AllGood(rows) && n < |names|
    ensures EditsOf(c, rows, names[..n + 1])
        == EditsOf(c, rows, names[..n]) + [Revision.Edit(|rows| + n, names[n], Revision.Remove)]
  {
  }

  lemma NextRemovalFits<V>(c: Codec<V>, rows: seq<Row<V>>, names: seq<string>, n: nat, before: seq<Edit>, e: Edit)
    requires AllGood(rows) && n < |names| && before == EditsOf(c, rows, names[..n]) &&
        e == Revision.Edit(|before|, names[n], Revision.Remove)
    ensures before + [e] == EditsOf(c, rows, names[..n + 1])
    ensures EditBytes(c, before + [e]) <= EditBytes(c, EditsOf(c, rows, names))
  {
    NextRemoval(c, rows, names, n);
    EditsPrefix(c, rows, names, n + 1);
  }

  /** When one more row can be taken. */
  lemma TakesOne<V>(c: Codec<V>, rows: seq<Row<V>>, r: Row<V>, hasBase: bool)
    requires Takes(c, rows, hasBase) && AllGood(rows)
    ensures Takes(c, rows + [r], hasBase) <==>
      Storable(c, r) && r.key.value !in KeysOf(rows) &&
          (hasBase ==> EditBytes(c, EditsOf(c, rows + [r], [])) <= BATCH_BYTES)
  {
    var more := rows + [r];
    assert more[|rows|] == r && forall i :: 0 <= i < |rows| ==> more[i] == rows[i];
    if Storable(c, r) { assert DistinctKeys(more) <==> r.key.value !in KeysOf(rows); }
  }

  lemma RowAppends<V(!new)>(c: Codec<V>, rows: seq<Row<V>>, r: Row<V>, hasBase: bool)
    requires Lawful(c) && AllGood(rows) && Good(r)
    ensures AllGood(rows + [r])
    ensures Lines(c, rows + [r]) == Lines(c, rows) + RowBytes(c, r)
    ensures Spool(c, EntriesOf(c, rows + [r])) == Spool(c, EntriesOf(c, rows)) + Framed(c, EntryOf(c, r))
    ensures EditsOf(c, rows + [r], []) == EditsOf(c, rows, []) + [PutOf(c, rows + [r], |rows|)]
    ensures KeysOf(rows + [r]) == KeysOf(rows) + {r.key.value}
  {
    var more := rows + [r];
    assert more[..|rows|] == rows;
    RowSpelled(c, r);
    assert EntriesOf(c, more) == EntriesOf(c, rows) + [EntryOf(c, r)];
    SpoolAppends(c, EntriesOf(c, rows), EntryOf(c, r));
    KeysGrow(more);
  }

  /** A row's line as it is put together from the bytes of its key and its value. */
  function RowBytes<V>(c: Codec<V>, r: Row<V>): Bytes
    requires Good(r)
  {
    [91] + c.enc(c.str(r.key.value)) + [44] + c.enc(r.value.value) + [93] + [NEWLINE]
  }

  /** That is the encoding of the two-item array. */
  lemma RowSpelled<V(!new)>(c: Codec<V>, r: Row<V>)
    requires Lawful(c) && Good(r)
    ensures RowBytes(c, r) == c.enc(RowValue(c, r)) + [NEWLINE]
  {
    var pair := [c.str(r.key.value), r.value.value];
    var items := Encoded(c, pair);
    assert items == [c.enc(pair[0]), c.enc(pair[1])];
    JoinOfTwo(items[0], items[1]);
    Brackets(items[0], items[1]);
  }

  lemma JoinOfTwo(a: Bytes, b: Bytes)
    ensures Join([a, b]) == a + [44] + b
  {
    assert [a, b][1..] == [b];
  }

  lemma Brackets(a: Bytes, b: Bytes)
    ensures [91] + a + [44] + b + [93] == [91] + (a + [44] + b) + [93]
  {
  }

  lemma {:induction false} EditBytesGrow<V>(c: Codec<V>, edits: seq<Edit>, n: nat)
    requires n <= |edits|
    ensures EditBytes(c, edits[..n]) <= EditBytes(c, edits)
    decreases |edits| - n
  {
    if n < |edits| {
      EditBytesGrow(c, edits, n + 1);
      assert edits[..n + 1][..n] == edits[..n];
    } else {
      assert edits[..n] == edits;
    }
  }

  lemma TakesPrefix<V>(c: Codec<V>, rows: seq<Row<V>>, n: nat, hasBase: bool)
    requires n <= |rows|
    ensures Takes(c, rows, hasBase) ==> Takes(c, rows[..n], hasBase)
  {
    if Takes(c, rows, hasBase) {
      var edits := EditsOf(c, rows, []);
      assert EditsOf(c, rows[..n], []) == edits[..n];
      EditBytesGrow(c, edits, n);
    }
  }

  lemma EditsPrefix<V>(c: Codec<V>, rows: seq<Row<V>>, names: seq<string>, n: nat)
    requires AllGood(rows) && n <= |names|
    ensures EditBytes(c, EditsOf(c, rows, names[..n])) <= EditBytes(c, EditsOf(c, rows, names))
  {
    var edits := EditsOf(c, rows, names);
    assert EditsOf(c, rows, names[..n]) == edits[..|rows| + n];
    EditBytesGrow(c, edits, |rows| + n);
  }

  /** Freezing a batch succeeds exactly when it is admissible, and then keeps its digest, its rows and its edits, which
      are numbered as they come. */
  method Freeze<V(!new)>(c: Codec<V>, rows: seq<Row<V>>, removals: seq<Option<string>>, hasBase: bool, hasDataset: bool)
    returns (r: Result<Frozen, Error>)
    requires Lawful(c)
    ensures r.Ok? <==> Admissible(c, rows, removals, hasBase, hasDataset)
    ensures r.Ok? ==> r.value == Frozen(DigestInput(c, rows, Elements(Names(removals))), Spool(c, EntriesOf(c, rows)),
      if hasBase then EditsOf(c, rows, Names(removals)) else [])
    ensures r.Ok? ==> Numbered(r.value.edits)
  {
    if !hasBase && (hasDataset || removals != []) { return Err(NoBase); }
    var batch := new Batch(c, hasBase);
    var fault := batch.AddRows(rows);
    if fault.Some? { return Err(fault.value); }
    if !AllStrings(removals) { return Err(BadRemovals); }
    r := FreezeRemovals(batch, Names(removals), rows);
    EditsNumbered(c, rows, Names(removals));
  }

  predicate Numbered(edits: seq<Edit>) { forall i :: 0 <= i < |edits| ==> edits[i].sequence == i }

  lemma EditsNumbered<V>(c: Codec<V>, rows: seq<Row<V>>, names: seq<string>)
    requires AllGood(rows)
    ensures Numbered(EditsOf(c, rows, names)) && Numbered([])
  {
    var edits := EditsOf(c, rows, names);
    forall i | 0 <= i < |edits| ensures edits[i].sequence == i {
      if i < |rows| {
        assert edits[i] == PutOf(c, rows, i);
      } else {
        assert edits[|rows| + (i - |rows|)] == Revision.Edit(i, names[i - |rows|], Revision.Remove);
      }
    }
  }

  predicate RemovalsFit<V>(c: Codec<V>, rows: seq<Row<V>>, names: seq<string>, hasBase: bool)
    requires AllGood(rows)
  {
    && AllDistinct(names) && KeysOf(rows) !! Elements(names) && (rows != [] || names != [])
    && (hasBase ==> EditBytes(c, EditsOf(c, rows, names)) <= BATCH_BYTES)
  }

  /** The second half: the removals, once all rows are taken. */
  method FreezeRemovals<V(!new)>(batch: Batch<V>, names: seq<string>, ghost rows: seq<Row<V>>)
      returns (r: Result<Frozen, Error>)
    requires Lawful(batch.c) && batch.Holds(rows) && (!batch.hasBase ==> names == [])
    modifies batch
    ensures r.Ok? <==> RemovalsFit(batch.c, rows, names, batch.hasBase)
    ensures r.Ok? ==>
        r.value == Frozen(DigestInput(batch.c, rows, Elements(names)), Spool(batch.c, EntriesOf(batch.c, rows)),
      if batch.hasBase then EditsOf(batch.c, rows, names) else [])
  {
    DistinctCount(names);
    NoKeys(rows);
    if |Elements(names)| != |names| { return Err(BadRemovals); }
    if batch.keys * Elements(names) != {} { return Err(RemovalIsPut); }
    if batch.keys == {} && names == [] { return Err(EmptyBatch); }
    var digest, spool := batch.digest + (batch.c.enc(RemovalsValue(batch.c, Elements(names))) + [NEWLINE]), batch.spool;
    if batch.hasBase {
      var within := batch.AddRemovals(names, rows);
      if !within { return Err(EditsTooLarge); }
    }
    r := Ok(Frozen(digest, spool, batch.edits));
  }

  lemma NoKeys<V>(rows: seq<Row<V>>)
    requires AllGood(rows)
    ensures KeysOf(rows) == {} <==> rows == []
  {
    if rows != [] { assert rows[0].key.value in KeysOf(rows); }
  }

  /** A spool has one reading. */
  lemma {:induction false} SpoolOnce<V(!new)>(c: Codec<V>, a: seq<Entry>, b: seq<Entry>)
    requires Lawful(c) && Spool(c, a) == Spool(c, b)
    requires (forall i :: 0 <= i < |a| ==> Fits(c, a[i])) && forall i :: 0 <= i < |b| ==> Fits(c, b[i])
    ensures a == b
    decreases |a|
  {
    SpoolSize(c, a);
    SpoolSize(c, b);
    if a != [] && b != [] {
      FrameReads(c, a[0], Spool(c, a[1..]));
      FrameReads(c, b[0], Spool(c, b[1..]));
      assert c.decode(c.utf8(a[0].key)) == a[0].key && c.decode(c.utf8(b[0].key)) == b[0].key;
      SpoolOnce(c, a[1..], b[1..]);
      assert a == [a[0]] + a[1..] && b == [b[0]] + b[1..];
    }
  }

  /** Whatever entries a frozen spool is read as: one for each row, in order, under its key, whose payload is made of
      that key's occurrence and of the bytes of that row's value. */
  lemma {:induction false} FrozenSpoolTells<V(!new)>(c: Codec<V>, rows: seq<Row<V>>, hasBase: bool, entries: seq<Entry>)
    requires Lawful(c) && Takes(c, rows, hasBase) && AllGood(rows) && Spool(c, entries) == Spool(c, EntriesOf(c, rows))
    requires forall i :: 0 <= i < |entries| ==> Fits(c, entries[i])
    ensures |entries| == |rows| && forall i :: 0 <= i < |rows| ==>
      Some(entries[i].key) == rows[i].key &&
      exists v :: Some(v) == rows[i].value && entries[i].payload == c.payload(c.occurrence(entries[i].key), c.enc(v))
  {
    var own := EntriesOf(c, rows);
    forall i | 0 <= i < |own| ensures Fits(c, own[i]) { assert Storable(c, rows[i]); }
    SpoolOnce(c, entries, own);
    forall i | 0 <= i < |rows| ensures Some(entries[i].key) == rows[i].key &&
        exists v :: Some(v) == rows[i].value &&
          entries[i].payload == c.payload(c.occurrence(entries[i].key), c.enc(v)) {
      assert Some(rows[i].value.value) == rows[i].value;
    }
  }

  // ----- an upsert's own spool -----

  /** Reading the spooled lines back gives the line of every row, in order: the batch that was frozen is the batch that
      is derived. */
  method ThawLines<V(!new)>(c: Codec<V>, spool: Bytes, ghost rows: seq<Row<V>>) returns (lines: seq<Bytes>)
    requires Lawful(c) && AllGood(rows) && spool == Lines(c, rows)
    ensures lines == RowLines(c, rows)
  {
    lines := [];
    var rest := spool;
    ghost var all, n := RowLines(c, rows), 0;
    LinesEnded(c, rows);
    assert all[0..] == all;
    while rest != []
      invariant 0 <= n <= |all| && lines == all[..n] && rest == Ended(all[n..])
      decreases |rest|
    {
      EndedNext(all, n);
      var line := FirstLine(rest, all[n], Ended(all[n + 1..]));
      lines := lines + [line];
      rest := rest[|line| + 1..];
      n := n + 1;
    }
    ghost var left := all[n..];
    assert |Ended(left)| >= |left| by { EndedSize(left); }
  }

  lemma EndedNext(lines: seq<Bytes>, n: nat)
    requires n <= |lines|
    ensures n < |lines| ==> Ended(lines[n..]) == lines[n] + [NEWLINE] + Ended(lines[n + 1..])
    ensures n == |lines| ==> Ended(lines[n..]) == []
    ensures n < |lines| ==> lines[..n + 1] == lines[..n] + [lines[n]]
  {
    if n < |lines| { assert lines[n..][1..] == lines[n + 1..]; }
  }

  lemma {:induction false} EndedSize(lines: seq<Bytes>)
    ensures |Ended(lines)| >= |lines|
  {
    if lines != [] { EndedSize(lines[1..]); }
  }

  method FirstLine(t: Bytes, ghost line: Bytes, ghost rest: Bytes) returns (r: Bytes)
    requires t == line + [NEWLINE] + rest && NEWLINE !in line
    ensures r == line && t[|r| + 1..] == rest
  {
    var i := 0;
    while t[i] != NEWLINE
      invariant 0 <= i <= |line| && NEWLINE !in t[..i]
      decreases |line| - i
    {
      assert i < |line| by { assert t[|line|] == NEWLINE; }
      i := i + 1;
    }
    assert i == |line| by { assert forall k :: 0 <= k < |line| ==> t[k] == line[k] && line[k] in line; }
    r := t[..i];
  }
}
