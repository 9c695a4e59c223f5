/** Checking the value edits of a revision in groups that are split. */
module EditProvenance {
  // Groups are split when they do not fit the read window, and provenance is kept from one edit
  // to the next.  Neither changes what is accepted, or in what order values are read.

  import opened Prelude

  const WINDOW_ROWS := 2048
  const WINDOW_BYTES := 8 * 1024 * 1024
  const GROUP := 256

  type Id = string

  datatype Entity<V> = Entity(value: V, size: nat)

  /** What one execution's result says it made, from what. */
  datatype Provenance = Provenance(success: bool, edges: set<(Id, Id)>, generated: set<Id>, used: set<Id>)

  datatype Edit<P> = Edit(execution: string, source: Id, result: Id, patch: P)

  datatype Error = Unavailable | Limit | NoProvenance | Differs

  class Checker<V(!new, ==), P(!new)> {
    const store: map<Id, Entity<V>>
    const results: map<string, Provenance>
    const patched: (V, P) -> V
    var window: map<Id, Entity<V>>
    var bytes: nat
    var uses: seq<Id>
    var previous: Option<string>
    var kept: Provenance

    constructor (store: map<Id, Entity<V>>, results: map<string, Provenance>, patched: (V, P) -> V)
      ensures this.store == store && this.results == results && this.patched == patched && Valid() && uses == []
    {
      this.store, this.results, this.patched := store, results, patched;
      window, bytes, uses, previous, kept := map[], 0, [], None, Provenance(true, {}, {}, {});
    }

    /** The window is within its limits and holds what the ledger holds; the provenance kept is that of the last
        execution looked up. */
    ghost predicate Valid()
      reads this
    {
      && |window| <= WINDOW_ROWS && bytes <= WINDOW_BYTES
      && (forall id :: id in window ==> id in store && window[id] == store[id] && Small(id))
      && (previous.Some? ==>
          previous.value in results && results[previous.value].success && kept == results[previous.value])
    }

    /** What an edit must be: recorded by a successful execution, and giving the retained value. */
    predicate Good(e: Edit<P>) {
      && e.execution in results && results[e.execution].success
      && (e.result, e.source) in results[e.execution].edges
      && e.result in results[e.execution].generated && e.source in results[e.execution].used
      && e.source in store && e.result in store && patched(store[e.source].value, e.patch) == store[e.result].value
    }

    predicate AllGood(group: seq<Edit<P>>) { forall i | 0 <= i < |group| :: Good(group[i]) }

    /** No single value is larger than the window. */
    predicate EachFits(group: seq<Edit<P>>) {
      forall i | 0 <= i < |group| :: FitsAlone(group[i])
    }

    predicate FitsAlone(e: Edit<P>) { Small(e.source) && Small(e.result) }

    /** What checking a group means: it is accepted exactly when every edit is good and no single value is too large,
        and its values were then read in order. */
    ghost predicate Checked(group: seq<Edit<P>>, before: seq<Id>, after: seq<Id>, fault: Option<Error>) {
      && (fault.None? <==> AllGood(group) && EachFits(group))
      && (fault.None? ==> after == before + ReadsOf(group))
      && (fault == Some(Limit) ==> !EachFits(group))
    }

    /** Two parts checked one after the other are the whole checked; a fault of the first is a fault of the whole. */
    lemma CheckedParts(front: seq<Edit<P>>, back: seq<Edit<P>>, u: seq<Id>, v: seq<Id>, w: seq<Id>, f: Option<Error>,
        g: Option<Error>)
      requires Checked(front, u, v, f) && (f.None? ==> Checked(back, v, w, g))
      ensures Checked(front + back, u, if f.Some? then v else w, if f.Some? then f else g)
    {
      PartsGood(front, back);
      ReadsAppend(front, back);
      if f.None? && g.None? { assert u + ReadsOf(front) + ReadsOf(back) == u + (ReadsOf(front) + ReadsOf(back)); }
    }

    lemma PartsGood(front: seq<Edit<P>>, back: seq<Edit<P>>)
      ensures AllGood(front + back) <==> AllGood(front) && AllGood(back)
      ensures EachFits(front + back) <==> EachFits(front) && EachFits(back)
    {
      var whole := front + back;
      assert forall i :: 0 <= i < |front| ==> whole[i] == front[i];
      assert forall i :: 0 <= i < |back| ==> whole[|front| + i] == back[i];
    }

    /** Each edit starts from the result of the one before. */
    predicate Chained(group: seq<Edit<P>>) {
      forall i | 0 < i < |group| :: group[i].source == group[i - 1].result
    }

    function PatchAll(v: V, group: seq<Edit<P>>): V {
      if group == [] then v else patched(PatchAll(v, group[..|group| - 1]), group[|group| - 1].patch)
    }

    /** Along a chain of accepted edits the retained values are the first source with every patch applied in turn, and
        every step was made from its source by a successful execution. */
    lemma {:induction false} ChainReplays(group: seq<Edit<P>>)
      requires group != [] && AllGood(group) && Chained(group)
      ensures group[0].source in store && group[|group| - 1].result in store
      ensures store[group[|group| - 1].result].value == PatchAll(store[group[0].source].value, group)
      ensures forall i :: 0 <= i < |group| ==>
        var e := group[i];
        && e.execution in results && results[e.execution].success && (e.result, e.source) in results[e.execution].edges
        && e.result in results[e.execution].generated && e.source in results[e.execution].used
      decreases |group|
    {
      var n := |group| - 1;
      assert Good(group[n]);
      if n > 0 {
        assert group[..n][n - 1] == group[n - 1];
        ChainReplays(group[..n]);
      } else {
        assert group[..n] == [];
      }
      forall i | 0 <= i < |group| ensures
          var e := group[i];
          && e.execution in results && results[e.execution].success
          && (e.result, e.source) in results[e.execution].edges
          && e.result in results[e.execution].generated && e.source in results[e.execution].used {
        assert Good(group[i]);
      }
    }

    lemma CheckedNothing(u: seq<Id>)
      ensures Checked([], u, u, None)
    {
      var none: seq<Edit<P>> := [];
      assert ReadsOf(none) == [] && u + [] == u;
    }

    predicate Small(id: Id) { id in store ==> store[id].size <= WINDOW_BYTES }

    predicate AllSmall(ids: seq<Id>, n: nat)
      requires n <= |ids|
    {
      forall i | 0 <= i < n :: Small(ids[i])
    }

    lemma SmallNext(ids: seq<Id>, n: nat)
      requires n < |ids| && AllSmall(ids, n) && Small(ids[n])
      ensures AllSmall(ids, n + 1)
    {
    }

    /** One more value in the window. */
    method Hold(id: Id)
      requires Valid() && id in store && id !in window && |window| < WINDOW_ROWS &&
          bytes + store[id].size <= WINDOW_BYTES
      modifies this`window, this`bytes
      ensures Valid() && id in window
    {
      bytes := bytes + store[id].size;
      window := window[id := store[id]];
    }

    /** Replaces the window; past a limit it stops with what fits. */
    method Prefetch(ids: seq<Id>) returns (fault: Option<Error>)
      requires Valid()
      modifies this`window, this`bytes
      ensures Valid()
      ensures fault in [None, Some(Unavailable), Some(Limit)]
      ensures fault == Some(Unavailable) ==> exists id :: id in ids && id !in store
      ensures fault.None? ==> forall id :: id in ids ==> Small(id)
      ensures fault == Some(Limit) && |ids| == 1 ==> !Small(ids[0])
    {
      window, bytes := map[], 0;
      var n := 0;
      while n < |ids|
        invariant 0 <= n <= |ids| && Valid() && (n == 0 ==> window == map[] && bytes == 0)
        invariant AllSmall(ids, n)
      {
        var id := ids[n];
        if id !in window {
          if id !in store { return Some(Unavailable); }
          if |window| >= WINDOW_ROWS || bytes + store[id].size > WINDOW_BYTES { return Some(Limit); }
          Hold(id);
        }
        SmallNext(ids, n);
        n := n + 1;
      }
      fault := None;
    }

    /** Reads a value from the window or the ledger, and records the use. */
    method ReadValue(id: Id) returns (r: Result<V, Error>)
      requires Valid()
      modifies this`uses
      ensures Valid()
      ensures r == if id in store then Ok(store[id].value) else Err(Unavailable)
      ensures uses == if r.Ok? then old(uses) + [id] else old(uses)
    {
      if id !in window && id !in store { return Err(Unavailable); }
      uses := uses + [id];
      r := Ok(if id in window then window[id].value else store[id].value);
    }

    /** Looks the execution up unless it is the one just used. */
    method CheckProvenance(e: Edit<P>) returns (ok: bool)
      requires Valid()
      modifies this`previous, this`kept
      ensures Valid()
      ensures Good(e) ==> ok
      ensures ok ==> e.execution in results && results[e.execution].success
      ensures ok ==> (e.result, e.source) in results[e.execution].edges
      ensures ok ==> e.result in results[e.execution].generated && e.source in results[e.execution].used
    {
      if previous != Some(e.execution) {
        if e.execution !in results || !results[e.execution].success { return false; }
        kept, previous := results[e.execution], Some(e.execution);
      }
      ok := (e.result, e.source) in kept.edges && e.result in kept.generated && e.source in kept.used;
    }

    /** One edit.  When its group is not in the window, each value is fetched alone before it is read. */
    method CheckEdit(e: Edit<P>, prefetched: bool) returns (fault: Option<Error>)
      requires Valid() && (prefetched ==> FitsAlone(e))
      modifies this
      ensures Valid()
      ensures fault.None? <==> Good(e) && FitsAlone(e)
      ensures fault.None? ==> uses == old(uses) + [e.source, e.result]
      ensures fault == Some(Limit) ==> !FitsAlone(e)
    {
      var known := CheckProvenance(e);
      if !known { return Some(NoProvenance); }
      ghost var u := uses;
      var before := Fetch(e.source, prefetched);
      if before.Err? { return Some(before.error); }
      var after := Fetch(e.result, prefetched);
      if after.Err? { return Some(after.error); }
      assert uses == u + [e.source] + [e.result] == u + [e.source, e.result];
      if patched(before.value, e.patch) != after.value { return Some(Differs); }
      fault := None;
    }

    /** Reads one value, fetching it alone first unless its group is in the window. */
    method Fetch(id: Id, prefetched: bool) returns (r: Result<V, Error>)
      requires Valid()
      modifies this`window, this`bytes, this`uses
      ensures Valid()
      ensures r.Ok? ==> id in store && r.value == store[id].value && uses == old(uses) + [id]
      ensures id in store && Small(id) ==> r.Ok?
      ensures r.Ok? && !prefetched ==> Small(id)
      ensures r == Err(Limit) ==> !Small(id)
    {
      if !prefetched {
        var fault := Prefetch([id]);
        if fault.Some? { return Err(fault.value); }
      }
      r := ReadValue(id);
    }

    method CheckEach(group: seq<Edit<P>>, prefetched: bool) returns (fault: Option<Error>)
      requires Valid() && (prefetched ==> EachFits(group))
      modifies this
      ensures Valid() && Checked(group, old(uses), uses, fault)
    {
      var n := 0;
      fault := None;
      CheckedNothing(uses);
      assert group[..0] == [];
      while n < |group|
        invariant 0 <= n <= |group| && Valid() && fault.None? && Checked(group[..n], old(uses), uses, None)
      {
        ghost var before := uses;
        fault := CheckEdit(group[n], prefetched);
        CheckedOne(group[n], before, uses, fault);
        assert group[..n + 1] == group[..n] + [group[n]];
        CheckedParts(group[..n], [group[n]], old(uses), before, uses, None, fault);
        if fault.Some? {
          CheckedStops(group[..n + 1], group[n + 1..], old(uses), uses, fault);
          assert group == group[..n + 1] + group[n + 1..];
          return;
        }
        n := n + 1;
      }
      assert group[..n] == group;
    }

    lemma CheckedOne(e: Edit<P>, u: seq<Id>, v: seq<Id>, f: Option<Error>)
      requires (f.None? <==> Good(e) && FitsAlone(e)) && (f.None? ==> v == u + [e.source, e.result])
      requires f == Some(Limit) ==> !FitsAlone(e)
      ensures Checked([e], u, v, f)
    {
      assert [e][..0] == [] && ReadsOf([e]) == [] + [e.source, e.result];
      assert [e][0] == e;
    }

    lemma CheckedStops(front: seq<Edit<P>>, back: seq<Edit<P>>, u: seq<Id>, v: seq<Id>, f: Option<Error>)
      requires Checked(front, u, v, f) && f.Some?
      ensures Checked(front + back, u, v, f)
    {
      CheckedParts(front, back, u, v, v, f, f);
    }

    /** A group that does not fit the window is halved until it does, or until one edit is left. */
    method CheckGroup(group: seq<Edit<P>>) returns (fault: Option<Error>)
      requires Valid()
      modifies this
      ensures Valid() && Checked(group, old(uses), uses, fault)
      decreases |group|
    {
      fault := Prefetch(ReadsOf(group));
      if fault == Some(Unavailable) {
        NotAllGood(group);
        return;
      }
      if fault == Some(Limit) && |group| > 1 {
        fault := CheckHalves(group, |group| / 2);
        return;
      }
      if fault.None? {
        forall i | 0 <= i < |group| ensures FitsAlone(group[i]) { ReadsHave(group, i); }
      }
      fault := CheckEach(group, fault.None?);
    }

    lemma NotAllGood(group: seq<Edit<P>>)
      requires exists id :: id in ReadsOf(group) && id !in store
      ensures !AllGood(group)
    {
      var id :| id in ReadsOf(group) && id !in store;
      ReadBy(group, id);
    }

    method CheckHalves(group: seq<Edit<P>>, middle: nat) returns (fault: Option<Error>)
      requires Valid() && 0 < middle < |group|
      modifies this
      ensures Valid() && Checked(group, old(uses), uses, fault)
      decreases |group|, 0
    {
      var front, back := group[..middle], group[middle..];
      assert group == front + back;
      fault := CheckGroup(front);
      ghost var between, first := uses, fault;
      if fault.Some? {
        CheckedStops(front, back, old(uses), uses, fault);
        return;
      }
      fault := CheckGroup(back);
      CheckedParts(front, back, old(uses), between, uses, first, fault);
    }

    /** All edits, in groups of at most so many: accepted exactly when every one is good and no single value is
        larger than the window; and the values are then read once for each edit, in the order of the edits. */
    method CheckAll(edits: seq<Edit<P>>) returns (fault: Option<Error>)
      requires Valid()
      modifies this
      ensures Valid() && Checked(edits, old(uses), uses, fault)
    {
      var offset := 0;
      fault := None;
      CheckedNothing(uses);
      assert edits[..0] == [];
      while offset < |edits|
        invariant 0 <= offset <= |edits| && Valid() && fault.None? && Checked(edits[..offset], old(uses), uses, None)
      {
        var end := if offset + GROUP <= |edits| then offset + GROUP else |edits|;
        ghost var before := uses;
        fault := CheckGroup(edits[offset..end]);
        assert edits[..end] == edits[..offset] + edits[offset..end];
        CheckedParts(edits[..offset], edits[offset..end], old(uses), before, uses, None, fault);
        if fault.Some? {
          CheckedStops(edits[..end], edits[end..], old(uses), uses, fault);
          assert edits == edits[..end] + edits[end..];
          return;
        }
        offset := end;
      }
      assert edits[..offset] == edits;
    }
  }

  /** The values a group reads, edit by edit. */
  function ReadsOf<P>(group: seq<Edit<P>>): seq<Id> {
    if group == [] then [] else ReadsOf(group[..|group| - 1]) + [group[|group| - 1].source, group[|group| - 1].result]
  }

  lemma {:induction false} ReadsAppend<P>(a: seq<Edit<P>>, b: seq<Edit<P>>)
    ensures ReadsOf(a + b) == ReadsOf(a) + ReadsOf(b)
    decreases |b|
  {
    if b == [] {
      assert a + b == a;
    } else {
      ReadsAppend(a, b[..|b| - 1]);
      assert (a + b)[..|a + b| - 1] == a + b[..|b| - 1];
    }
  }

  lemma {:induction false} ReadsHave<P>(group: seq<Edit<P>>, i: nat)
    requires i < |group|
    ensures group[i].source in ReadsOf(group) && group[i].result in ReadsOf(group)
    decreases |group|
  {
    var n := |group| - 1;
    if i < n { ReadsHave(group[..n], i); }
  }

  lemma {:induction false} ReadBy<P>(group: seq<Edit<P>>, id: Id)
    requires id in ReadsOf(group)
    ensures exists i :: 0 <= i < |group| && (group[i].source == id || group[i].result == id)
    decreases |group|
  {
    var n := |group| - 1;
    if id in ReadsOf(group[..n]) {
      ReadBy(group[..n], id);
      var i :| 0 <= i < n && (group[..n][i].source == id || group[..n][i].result == id);
      assert group[i] == group[..n][i];
    } else {
      assert group[n].source == id || group[n].result == id;
    }
  }
}
