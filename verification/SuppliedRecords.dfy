/** A snapshot of supplied records: bounded, sorted by identifier, and the same for every order of supply. */
module SuppliedRecords {
  import opened Prelude
  import opened Ordering
  import Framing

  /** A record that passes its checks has an identifier, written here by its UTF-16 bytes, and canonical bytes. */
  datatype Supplied = Record(id: seq<int>, payload: seq<int>) | Malformed

  datatype Error = TooManyRecords | TooManyBytes | BadRecord | Repeats

  datatype Snapshot = Snapshot(records: seq<Supplied>, state: seq<int>)

  const DOMAIN: seq<int> := Utf8("docspec-supplied-records/1")
  const NAME: seq<int> := Utf8("records")

  /** ASCII text as bytes. */
  function Utf8(s: string): seq<int> { Codes(s) }

  function Size(r: Supplied): nat { if r.Record? then |r.payload| else 0 }

  function Bytes(records: seq<Supplied>): nat {
    if records == [] then 0 else Bytes(records[..|records| - 1]) + Size(records[|records| - 1])
  }

  predicate Distinct(records: seq<Supplied>) {
    forall i, j :: 0 <= i < j < |records| && records[i].Record? && records[j].Record? ==> records[i].id != records[j].id
  }

  /** What is accepted, whatever the order. */
  predicate Acceptable(records: seq<Supplied>, maxRecords: nat, maxBytes: nat) {
    && |records| <= maxRecords && Bytes(records) <= maxBytes
    && (forall i :: 0 <= i < |records| ==> records[i].Record?)
    && Distinct(records)
  }

  function IdOf(r: Supplied): seq<int> { if r.Record? then r.id else [] }

  predicate IdBefore(a: Supplied, b: Supplied) { Before(IdOf(a), IdOf(b)) }

  lemma IdsWeakOrder()
    ensures WeakOrder(IdBefore)
  {
    BeforeStrictTotal();
  }

  predicate Sorted(records: seq<Supplied>) {
    (forall i :: 0 <= i < |records| ==> records[i].Record?) && Rising(IdBefore, records)
  }

  function Payloads(records: seq<Supplied>): (r: seq<seq<int>>)
    requires forall i :: 0 <= i < |records| ==> records[i].Record?
    ensures |r| == |records| && forall i :: 0 <= i < |r| ==> r[i] == records[i].payload
  {
    seq(|records|, i requires 0 <= i < |records| => records[i].payload)
  }

  /** The records in order, and what their digest is taken of. */
  ghost predicate IsSnapshot(records: seq<Supplied>, s: Snapshot) {
    && multiset(s.records) == multiset(records) && Sorted(s.records) && Distinct(s.records)
    && s.state == Framing.Framed(DOMAIN, NAME, Payloads(s.records))
  }

  // ----- permutations -----

  lemma {:induction false} BytesTakeOut(records: seq<Supplied>, i: nat)
    requires i < |records|
    ensures Bytes(records) == Bytes(records[..i] + records[i + 1..]) + Size(records[i])
    decreases |records|
  {
    var n := |records| - 1;
    if i == n {
      assert records[..i] + records[i + 1..] == records[..n];
    } else {
      BytesTakeOut(records[..n], i);
      var less := records[..i] + records[i + 1..];
      assert less[..|less| - 1] == records[..n][..i] + records[..n][i + 1..] && less[|less| - 1] == records[n];
    }
  }

  /** The last of one is somewhere in the other, and what is left are permutations too. */
  lemma TakesOut(a: seq<Supplied>, b: seq<Supplied>) returns (i: nat)
    requires multiset(a) == multiset(b) && a != []
    ensures i < |b| && b[i] == a[|a| - 1] && multiset(a[..|a| - 1]) == multiset(b[..i] + b[i + 1..])
  {
    var x := a[|a| - 1];
    assert a == a[..|a| - 1] + [x];
    assert x in multiset(b);
    i :| 0 <= i < |b| && b[i] == x;
    assert b == b[..i] + [x] + b[i + 1..];
    Cancels(multiset(a[..|a| - 1]), multiset(b[..i] + b[i + 1..]), x);
  }

  lemma Cancels(a: multiset<Supplied>, b: multiset<Supplied>, x: Supplied)
    requires a + multiset{x} == b + multiset{x}
    ensures a == b
  {
    assert a == a + multiset{x} - multiset{x} && b == b + multiset{x} - multiset{x};
  }

  lemma {:induction false} SamePermutation(a: seq<Supplied>, b: seq<Supplied>)
    requires multiset(a) == multiset(b)
    ensures |a| == |b| && Bytes(a) == Bytes(b)
    decreases |a|
  {
    assert |multiset(a)| == |a| && |multiset(b)| == |b|;
    if a != [] {
      var i := TakesOut(a, b);
      BytesTakeOut(b, i);
      SamePermutation(a[..|a| - 1], b[..i] + b[i + 1..]);
    }
  }

  lemma DistinctIn(a: seq<Supplied>, b: seq<Supplied>)
    requires multiset(a) == multiset(b) && Distinct(a) && forall i :: 0 <= i < |a| ==> a[i].Record?
    ensures Distinct(b) && forall i :: 0 <= i < |b| ==> b[i].Record?
  {
    forall i | 0 <= i < |b| ensures b[i] in a { assert b[i] in multiset(a); }
    forall i, j | 0 <= i < j < |b| ensures b[i].id != b[j].id {
      if b[i].id == b[j].id {
        var x :| 0 <= x < |a| && a[x] == b[i];
        var y :| 0 <= y < |a| && a[y] == b[j];
        assert x == y;
        Twice(b, i, j);
        Once(a, x);
        assert false;
      }
    }
  }

  lemma Twice(b: seq<Supplied>, i: nat, j: nat)
    requires i < j < |b| && b[i] == b[j]
    ensures multiset(b)[b[i]] >= 2
  {
    assert b == b[..i] + [b[i]] + b[i + 1..j] + [b[j]] + b[j + 1..];
  }

  lemma Once(a: seq<Supplied>, x: nat)
    requires x < |a| && Distinct(a) && forall i :: 0 <= i < |a| ==> a[i].Record?
    ensures multiset(a)[a[x]] == 1
  {
    assert a == a[..x] + [a[x]] + a[x + 1..];
    assert a[x] !in a[..x] && a[x] !in a[x + 1..];
  }

  lemma SameFirst(a: seq<Supplied>, b: seq<Supplied>)
    requires a != [] && b != [] && a[0] in b && b[0] in a && Sorted(a) && Sorted(b) && Distinct(b)
    ensures a[0] == b[0]
  {
    var i :| 0 <= i < |b| && b[i] == a[0];
    var j :| 0 <= j < |a| && a[j] == b[0];
    BeforeAsymmetric(a[0].id, a[0].id);
    assert !IdBefore(b[i], b[0]) && !IdBefore(a[j], a[0]);
    BeforeTotal(a[0].id, b[0].id);
    assert i == 0;
  }

  lemma DropsFirst(a: seq<Supplied>)
    requires a != []
    ensures a == [a[0]] + a[1..] && multiset(a[1..]) == multiset(a) - multiset{a[0]}
  {
    assert a == [a[0]] + a[1..];
  }

  lemma Tail(a: seq<Supplied>)
    requires a != [] && Sorted(a) && Distinct(a)
    ensures Sorted(a[1..]) && Distinct(a[1..])
  {
  }

  /** Sorted by distinct identifiers there is only one order. */
  lemma {:induction false} OneOrder(a: seq<Supplied>, b: seq<Supplied>)
    requires multiset(a) == multiset(b) && Sorted(a) && Sorted(b) && Distinct(a) && Distinct(b)
    ensures a == b
    decreases |a|
  {
    assert |multiset(a)| == |a| && |multiset(b)| == |b|;
    if a != [] {
      assert a[0] in multiset(b) && b[0] in multiset(a);
      SameFirst(a, b);
      DropsFirst(a);
      DropsFirst(b);
      Tail(a);
      Tail(b);
      OneOrder(a[1..], b[1..]);
    }
  }

  /** The snapshot, and whether there is one, do not depend on the order of supply. */
  lemma OrderFree(a: seq<Supplied>, b: seq<Supplied>, maxRecords: nat, maxBytes: nat)
    requires multiset(a) == multiset(b)
    ensures Acceptable(a, maxRecords, maxBytes) <==> Acceptable(b, maxRecords, maxBytes)
    ensures forall s, t :: IsSnapshot(a, s) && IsSnapshot(b, t) ==> s == t
  {
    SamePermutation(a, b);
    if Acceptable(a, maxRecords, maxBytes) { DistinctIn(a, b); }
    if Acceptable(b, maxRecords, maxBytes) { DistinctIn(b, a); }
    forall s, t | IsSnapshot(a, s) && IsSnapshot(b, t) ensures s == t { OneOrder(s.records, t.records); }
  }

  lemma DomainHasNoNul()
    ensures 0 !in DOMAIN && |NAME| < Framing.LIMIT
  {
    var text := "docspec-supplied-records/1";
    assert forall i :: 0 <= i < |text| ==> text[i] as int != 0;
  }

  /** One state digest input for one list of payloads. */
  lemma StateFixesPayloads(s: Snapshot, t: Snapshot, a: seq<Supplied>, b: seq<Supplied>)
    requires IsSnapshot(a, s) && IsSnapshot(b, t) && |s.records| < Framing.LIMIT && |t.records| < Framing.LIMIT
    requires forall i :: 0 <= i < |s.records| ==> Size(s.records[i]) < Framing.LIMIT
    requires forall i :: 0 <= i < |t.records| ==> Size(t.records[i]) < Framing.LIMIT
    ensures s.state == t.state <==> Payloads(s.records) == Payloads(t.records)
  {
    DomainHasNoNul();
    Framing.FramedInjective(DOMAIN, NAME, Payloads(s.records), DOMAIN, NAME, Payloads(t.records));
  }

  // ----- the constructor -----

  /** The first fault met while records arrive. */
  method Take(records: seq<Supplied>, maxRecords: nat, maxBytes: nat) returns (r: Result<seq<Supplied>, Error>)
    ensures r.Ok? <==>
        |records| <= maxRecords && Bytes(records) <= maxBytes && forall i :: 0 <= i < |records| ==> records[i].Record?
    ensures r.Ok? ==> r.value == records
    ensures r.Err? ==> match r.error
      case TooManyRecords => |records| > maxRecords
      case TooManyBytes => Bytes(records) > maxBytes
      case BadRecord => exists i :: 0 <= i < |records| && records[i].Malformed?
      case Repeats => false
  {
    var snapshots, bytes, n := [], 0, 0;
    while n < |records|
      invariant 0 <= n <= |records| && n <= maxRecords && snapshots == records[..n]
      invariant bytes == Bytes(records[..n]) <= maxBytes
      invariant forall i :: 0 <= i < n ==> records[i].Record?
    {
      BytesGrow(records, n + 1);
      assert records[..n + 1][..n] == records[..n];
      if |snapshots| >= maxRecords { return Err(TooManyRecords); }
      if records[n].Malformed? { return Err(BadRecord); }
      bytes := bytes + |records[n].payload|;
      if bytes > maxBytes { return Err(TooManyBytes); }
      snapshots := snapshots + [records[n]];
      n := n + 1;
    }
    assert records[..n] == records;
    r := Ok(snapshots);
  }

  lemma {:induction false} BytesGrow(records: seq<Supplied>, k: nat)
    requires k <= |records|
    ensures Bytes(records[..k]) <= Bytes(records)
    decreases |records| - k
  {
    if k < |records| {
      BytesGrow(records, k + 1);
      assert records[..k + 1][..k] == records[..k];
    } else {
      assert records[..k] == records;
    }
  }

  /** In sorted order a repeated identifier stands next to itself. */
  lemma {:induction false} RepeatsAreNeighbours(r: seq<Supplied>)
    requires Sorted(r) && forall i :: 0 <= i < |r| - 1 ==> r[i].id != r[i + 1].id
    ensures Distinct(r)
  {
    BeforeStrictTotal();
    forall i, j | 0 <= i < j < |r| ensures r[i].id != r[j].id {
      assert r[i].id != r[i + 1].id && !IdBefore(r[i + 1], r[i]) && (j == i + 1 || !IdBefore(r[j], r[i + 1]));
    }
  }

  /** Compares each record with the next. */
  method HasRepeat(snapshots: seq<Supplied>) returns (repeats: bool)
    requires Sorted(snapshots)
    ensures repeats <==> !Distinct(snapshots)
  {
    var i := 0;
    while i + 1 < |snapshots|
      invariant 0 <= i <= |snapshots|
      invariant forall k :: 0 <= k < i && k + 1 < |snapshots| ==> snapshots[k].id != snapshots[k + 1].id
    {
      if snapshots[i].id == snapshots[i + 1].id { return true; }
      i := i + 1;
    }
    RepeatsAreNeighbours(snapshots);
    repeats := false;
  }

  /** The whole snapshot. */
  method Build(records: seq<Supplied>, maxRecords: nat, maxBytes: nat) returns (r: Result<Snapshot, Error>)
    ensures r.Ok? <==> Acceptable(records, maxRecords, maxBytes)
    ensures r.Ok? ==> IsSnapshot(records, r.value)
    ensures r == Err(Repeats) ==> !Distinct(records)
  {
    var taken := Take(records, maxRecords, maxBytes);
    if taken.Err? { return Err(taken.error); }
    IdsWeakOrder();
    var snapshots := Sort(IdBefore, taken.value);
    forall i | 0 <= i < |snapshots| ensures snapshots[i].Record? { assert snapshots[i] in multiset(records); }
    if Distinct(records) { DistinctIn(records, snapshots); }
    var repeats := HasRepeat(snapshots);
    if repeats { return Err(Repeats); }
    DistinctIn(snapshots, records);
    var state := Framing.Seal(DOMAIN, NAME, Payloads(snapshots));
    r := Ok(Snapshot(snapshots, state));
  }
}
