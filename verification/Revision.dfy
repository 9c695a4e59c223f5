/** Membership edits of a revision, one by one and as one query. */
module Revision {
  // The query looks only at the edit before and at the last edit of each key; it does what
  // applying the edits one by one does, and refuses what that refuses.

  import opened Prelude

  datatype Action<O> = Put(occurrence: O) | Remove

  datatype Edit<K, O> = Edit(sequence: int, key: K, action: Action<O>)

  // ----- one by one -----

  /** A removal needs a live key. */
  function Step<K, O>(m: map<K, O>, e: Edit<K, O>): Option<map<K, O>> {
    match e.action
    case Put(o) => Some(m[e.key := o])
    case Remove => if e.key in m then Some(m - {e.key}) else None
  }

  function Replay<K, O>(base: map<K, O>, edits: seq<Edit<K, O>>): Option<map<K, O>> {
    if edits == [] then Some(base)
    else
      match Replay(base, edits[..|edits| - 1])
      case None => None
      case Some(m) => Step(m, edits[|edits| - 1])
  }

  // ----- the query -----

  predicate Distinct<K, O>(edits: seq<Edit<K, O>>) {
    forall i, j :: 0 <= i < j < |edits| ==> edits[i].sequence != edits[j].sequence
  }

  /** `lag(...) OVER (PARTITION BY member_key ORDER BY sequence)`. */
  ghost predicate IsLag<K(!new), O(!new)>(edits: seq<Edit<K, O>>, e: Edit<K, O>, before: Edit<K, O>) {
    && before in edits && before.key == e.key && before.sequence < e.sequence
    && forall q :: q in edits && q.key == e.key && q.sequence < e.sequence ==> q.sequence <= before.sequence
  }

  ghost predicate First<K(!new), O(!new)>(edits: seq<Edit<K, O>>, e: Edit<K, O>) {
    forall q :: q in edits && q.key == e.key ==> q.sequence >= e.sequence
  }

  /** A removal after a removal, or a first removal of a key the base does not have. */
  ghost predicate Bad<K(!new), O(!new)>(base: map<K, O>, edits: seq<Edit<K, O>>, e: Edit<K, O>) {
    e.action.Remove? && ((exists p :: IsLag(edits, e, p) && p.action.Remove?) || (First(edits, e) && e.key !in base))
  }

  ghost predicate Refused<K(!new), O(!new)>(base: map<K, O>, edits: seq<Edit<K, O>>) {
    exists e :: e in edits && Bad(base, edits, e)
  }

  /** `row_number() OVER (PARTITION BY member_key ORDER BY sequence DESC) = 1`. */
  ghost predicate Latest<K(!new), O(!new)>(edits: seq<Edit<K, O>>, e: Edit<K, O>) {
    e in edits && forall q :: q in edits && q.key == e.key ==> q.sequence <= e.sequence
  }

  predicate Edited<K(==), O(!new)>(edits: seq<Edit<K, O>>, k: K) { exists i :: 0 <= i < |edits| && edits[i].key == k }

  /** Members of unedited keys stay; a key's last edit decides the others. */
  ghost predicate IsResolved<K(!new), O(!new)>(base: map<K, O>, edits: seq<Edit<K, O>>, m: map<K, O>) {
    && (forall k :: !Edited(edits, k) ==> Get(m, k) == Get(base, k))
    && (forall e :: Latest(edits, e) ==> Get(m, e.key) == match e.action case Put(o) => Some(o) case Remove => None)
  }

  // ----- they agree -----

  predicate Ordered<K, O>(edits: seq<Edit<K, O>>) {
    forall i, j :: 0 <= i < j < |edits| ==> edits[i].sequence < edits[j].sequence
  }

  /** The last edit of a key in an ordered prefix is the lag of the next one. */
  lemma LagIsLatest<K(!new), O(!new)>(edits: seq<Edit<K, O>>, e: Edit<K, O>, p: Edit<K, O>)
    requires Ordered(edits) && edits != [] && e == edits[|edits| - 1] && p.key == e.key
    ensures IsLag(edits, e, p) <==> Latest(edits[..|edits| - 1], p)
    ensures First(edits, e) <==> !Edited(edits[..|edits| - 1], e.key)
  {
    var n := |edits| - 1;
    forall q ensures q in edits[..n] <==> q in edits && q.sequence < e.sequence { Before(edits, q); }
  }

  lemma Before<K(!new), O(!new)>(edits: seq<Edit<K, O>>, q: Edit<K, O>)
    requires Ordered(edits) && edits != []
    ensures q in edits[..|edits| - 1] <==> q in edits && q.sequence < edits[|edits| - 1].sequence
  {
    var n := |edits| - 1;
    if q in edits && q.sequence < edits[n].sequence {
      var i :| 0 <= i < |edits| && edits[i] == q;
      assert edits[..n][i] == q;
    }
  }

  /** An earlier edit has the same lag in a prefix that holds it. */
  lemma BadInPrefix<K(!new), O(!new)>(base: map<K, O>, edits: seq<Edit<K, O>>, e: Edit<K, O>)
    requires Ordered(edits) && edits != [] && e in edits[..|edits| - 1]
    ensures Bad(base, edits, e) <==> Bad(base, edits[..|edits| - 1], e)
  {
    var front := edits[..|edits| - 1];
    Before(edits, e);
    forall q: Edit<K, O> | q.sequence <= e.sequence ensures q in edits <==> q in front { Before(edits, q); }
    forall p ensures IsLag(edits, e, p) <==> IsLag(front, e, p) {}
    assert First(edits, e) <==> First(front, e) by {
      if First(front, e) {
        forall q | q in edits && q.key == e.key ensures q.sequence >= e.sequence { Before(edits, q); }
      }
    }
  }

  lemma LatestExists<K(!new), O(!new)>(edits: seq<Edit<K, O>>, k: K) returns (e: Edit<K, O>)
    requires Ordered(edits) && Edited(edits, k)
    ensures Latest(edits, e) && e.key == k
    decreases |edits|
  {
    var n := |edits| - 1;
    if edits[n].key == k { return edits[n]; }
    var i :| 0 <= i < |edits| && edits[i].key == k;
    assert edits[..n][i].key == k;
    e := LatestExists(edits[..n], k);
    forall q | q in edits && q.key == k ensures q.sequence <= e.sequence {
      var j :| 0 <= j < |edits| && edits[j] == q;
      assert edits[..n][j] == q;
    }
  }

  /** The last edit of an ordered list is bad exactly when its key is not live before it. */
  lemma LastIsBad<K(!new), O(!new)>(base: map<K, O>, edits: seq<Edit<K, O>>, m: map<K, O>)
    requires Ordered(edits) && edits != [] && IsResolved(base, edits[..|edits| - 1], m)
    ensures var e := edits[|edits| - 1]; Bad(base, edits, e) <==> e.action.Remove? && e.key !in m
  {
    var e, front := edits[|edits| - 1], edits[..|edits| - 1];
    LagIsLatest(edits, e, e);
    if Edited(front, e.key) {
      var p := LatestExists(front, e.key);
      LagIsLatest(edits, e, p);
      assert Get(m, e.key) == match p.action case Put(o) => Some(o) case Remove => None;
      forall q | IsLag(edits, e, q) ensures q.action.Remove? <==> e.key !in m {
        LagIsLatest(edits, e, q);
        assert Get(m, e.key) == match q.action case Put(o) => Some(o) case Remove => None;
      }
    } else {
      assert Get(m, e.key) == Get(base, e.key);
      forall q ensures !IsLag(edits, e, q) {
        if q.key == e.key {
          LagIsLatest(edits, e, q);
          InEdited(front, q);
        }
      }
    }
  }

  lemma InEdited<K(!new), O(!new)>(edits: seq<Edit<K, O>>, q: Edit<K, O>)
    ensures q in edits ==> Edited(edits, q.key)
  {
  }

  lemma EditedFront<K(!new), O(!new)>(edits: seq<Edit<K, O>>, n: nat, k: K)
    requires n <= |edits|
    ensures Edited(edits[..n], k) ==> Edited(edits, k)
  {
  }

  /** One more edit, applied. */
  lemma StepResolves<K(!new), O(!new)>(base: map<K, O>, edits: seq<Edit<K, O>>, m: map<K, O>)
    requires Ordered(edits) && edits != [] && IsResolved(base, edits[..|edits| - 1], m) &&
        Step(m, edits[|edits| - 1]).Some?
    ensures IsResolved(base, edits, Step(m, edits[|edits| - 1]).value)
  {
    forall k | !Edited(edits, k) ensures Get(Step(m, edits[|edits| - 1]).value, k) == Get(base, k) {
      StepKeeps(base, edits, m, k);
    }
    forall q | Latest(edits, q)
      ensures Get(Step(m, edits[|edits| - 1]).value, q.key) == match q.action case Put(o) => Some(o) case Remove => None
    {
      StepSets(base, edits, m, q);
    }
  }

  lemma StepKeeps<K(!new), O(!new)>(base: map<K, O>, edits: seq<Edit<K, O>>, m: map<K, O>, k: K)
    requires edits != [] && IsResolved(base, edits[..|edits| - 1], m) && Step(m, edits[|edits| - 1]).Some? &&
        !Edited(edits, k)
    ensures Get(Step(m, edits[|edits| - 1]).value, k) == Get(base, k)
  {
    EditedFront(edits, |edits| - 1, k);
    assert edits[|edits| - 1].key != k;
    assert Get(m, k) == Get(base, k);
  }

  lemma StepSets<K(!new), O(!new)>(base: map<K, O>, edits: seq<Edit<K, O>>, m: map<K, O>, q: Edit<K, O>)
    requires Ordered(edits) && edits != [] && IsResolved(base, edits[..|edits| - 1], m) &&
        Step(m, edits[|edits| - 1]).Some?
    requires Latest(edits, q)
    ensures Get(Step(m, edits[|edits| - 1]).value, q.key) == match q.action case Put(o) => Some(o) case Remove => None
  {
    var n := |edits| - 1;
    var i :| 0 <= i < |edits| && edits[i] == q;
    assert edits[n] in edits;
    if i < n {
      assert edits[..n][i] == q;
      assert q.key != edits[n].key;
      assert Latest(edits[..n], q);
    }
  }

  /** On edits in order, the query refuses exactly when applying them one by one fails, and otherwise gives the same
      members. */
  lemma {:induction false} ReplayResolves<K(!new), O(!new)>(base: map<K, O>, edits: seq<Edit<K, O>>)
    requires Ordered(edits)
    ensures Replay(base, edits).None? <==> Refused(base, edits)
    ensures Replay(base, edits).Some? ==> IsResolved(base, edits, Replay(base, edits).value)
    decreases |edits|
  {
    if edits != [] {
      var n := |edits| - 1;
      var front := edits[..n];
      ReplayResolves(base, front);
      if Replay(base, front).None? {
        var e :| e in front && Bad(base, front, e);
        BadInPrefix(base, edits, e);
        assert e in edits;
      } else {
        var m := Replay(base, front).value;
        LastIsBad(base, edits, m);
        forall e | e in front ensures !Bad(base, edits, e) { BadInPrefix(base, edits, e); }
        if Step(m, edits[n]).Some? { StepResolves(base, edits, m); } else { assert edits[n] in edits; }
        assert forall e :: e in edits ==> e in front || e == edits[n];
      }
    }
  }

  /** The query does not depend on the order the edits are listed in, so this holds of any listing. */
  lemma ResolveAgrees<K(!new), O(!new)>(base: map<K, O>, listed: seq<Edit<K, O>>, ordered: seq<Edit<K, O>>)
    requires Ordered(ordered) && forall e :: e in listed <==> e in ordered
    ensures Replay(base, ordered).None? <==> Refused(base, listed)
    ensures Replay(base, ordered).Some? ==> IsResolved(base, listed, Replay(base, ordered).value)
  {
    ReplayResolves(base, ordered);
    forall e, p ensures IsLag(listed, e, p) <==> IsLag(ordered, e, p) {}
    forall e ensures First(listed, e) <==> First(ordered, e) {}
    forall e ensures Bad(base, listed, e) <==> Bad(base, ordered, e) {}
    forall e ensures Latest(listed, e) <==> Latest(ordered, e) {}
    forall k ensures Edited(listed, k) <==> Edited(ordered, k) {
      if Edited(listed, k) {
        var i :| 0 <= i < |listed| && listed[i].key == k;
        assert listed[i] in ordered;
      }
      if Edited(ordered, k) {
        var i :| 0 <= i < |ordered| && ordered[i].key == k;
        assert ordered[i] in listed;
      }
    }
  }

  /** What the query resolves is one map. */
  lemma ResolvedOnce<K(!new), O(!new)>(base: map<K, O>, edits: seq<Edit<K, O>>, a: map<K, O>, b: map<K, O>)
    requires Ordered(edits) && IsResolved(base, edits, a) && IsResolved(base, edits, b)
    ensures a == b
  {
    forall k ensures Get(a, k) == Get(b, k) {
      if Edited(edits, k) { var e := LatestExists(edits, k); }
    }
    assert forall k :: (k in a <==> Get(a, k).Some?) && (k in b <==> Get(b, k).Some?);
    forall k | k in a ensures a[k] == b[k] { assert Get(a, k) == Some(a[k]) && Get(b, k) == Some(b[k]); }
  }
}
