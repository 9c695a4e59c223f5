/** The ordered merge of two streams with unique keys: their full outer join. */
module PairedRows {
  import opened Prelude
  import opened Ordering

  type Pair<+R> = (Option<R>, Option<R>)

  function KeyOf<R, K>(key: R -> K, p: Pair<R>): K
    requires p.0.Some? || p.1.Some?
  {
    if p.0.Some? then key(p.0.value) else key(p.1.value)
  }

  predicate Ordered<R, K>(lt: (K, K) -> bool, key: R -> K, rows: seq<R>) {
    forall i, j :: 0 <= i < j < |rows| ==> lt(key(rows[i]), key(rows[j]))
  }

  /** The rows of one side, in the order of the pairs. */
  function Olds<R>(pairs: seq<Pair<R>>): seq<R> {
    if pairs == [] then [] else Olds(pairs[..|pairs| - 1]) + Listed(pairs[|pairs| - 1].0)
  }

  function News<R>(pairs: seq<Pair<R>>): seq<R> {
    if pairs == [] then [] else News(pairs[..|pairs| - 1]) + Listed(pairs[|pairs| - 1].1)
  }

  function Listed<R>(o: Option<R>): seq<R> { if o.Some? then [o.value] else [] }

  predicate PairFits<R, K(==)>(key: R -> K, p: Pair<R>) {
    (p.0.Some? || p.1.Some?) && (p.0.Some? && p.1.Some? ==> key(p.0.value) == key(p.1.value))
  }

  /** Every row of both sides once and in its order, the two rows of a pair under one key, the pairs in key order. */
  ghost predicate IsJoin<R, K>(lt: (K, K) -> bool, key: R -> K, older: seq<R>, newer: seq<R>, pairs: seq<Pair<R>>) {
    && Olds(pairs) == older && News(pairs) == newer
    && (forall i :: 0 <= i < |pairs| ==> PairFits(key, pairs[i]))
    && (forall i, j :: 0 <= i < j < |pairs| ==> lt(KeyOf(key, pairs[i]), KeyOf(key, pairs[j])))
  }

  lemma {:induction false} OldsHas<R>(pairs: seq<Pair<R>>, r: R)
    ensures r in Olds(pairs) <==> exists i :: 0 <= i < |pairs| && pairs[i].0 == Some(r)
  {
    if pairs != [] {
      var n := |pairs| - 1;
      OldsHas(pairs[..n], r);
      if r in Olds(pairs[..n]) {
        var i :| 0 <= i < n && pairs[..n][i].0 == Some(r);
        assert pairs[i].0 == Some(r);
      }
      if i :| 0 <= i < |pairs| && pairs[i].0 == Some(r) {
        if i < n { assert pairs[..n][i].0 == Some(r); }
      }
    }
  }

  lemma {:induction false} NewsHas<R>(pairs: seq<Pair<R>>, r: R)
    ensures r in News(pairs) <==> exists i :: 0 <= i < |pairs| && pairs[i].1 == Some(r)
  {
    if pairs != [] {
      var n := |pairs| - 1;
      NewsHas(pairs[..n], r);
      if r in News(pairs[..n]) {
        var i :| 0 <= i < n && pairs[..n][i].1 == Some(r);
        assert pairs[i].1 == Some(r);
      }
      if i :| 0 <= i < |pairs| && pairs[i].1 == Some(r) {
        if i < n { assert pairs[..n][i].1 == Some(r); }
      }
    }
  }

  /** A row stands alone exactly when the other side has no row of its key. */
  lemma AloneIff<R(!new), K(!new)>(lt: (K, K) -> bool, key: R -> K, older: seq<R>, newer: seq<R>, pairs: seq<Pair<R>>,
      i: nat)
    requires StrictTotal(lt) && IsJoin(lt, key, older, newer, pairs) && i < |pairs|
    ensures pairs[i].0.None? <==> forall r :: r in older ==> key(r) != KeyOf(key, pairs[i])
    ensures pairs[i].1.None? <==> forall r :: r in newer ==> key(r) != KeyOf(key, pairs[i])
  {
    var k := KeyOf(key, pairs[i]);
    if pairs[i].0.Some? { OldsHas(pairs, pairs[i].0.value); }
    if pairs[i].1.Some? { NewsHas(pairs, pairs[i].1.value); }
    forall r | r in older && key(r) == k ensures pairs[i].0.Some? {
      OldsHas(pairs, r);
      var j :| 0 <= j < |pairs| && pairs[j].0 == Some(r);
      assert KeyOf(key, pairs[j]) == k;
      assert i == j;
    }
    forall r | r in newer && key(r) == k ensures pairs[i].1.Some? {
      NewsHas(pairs, r);
      var j :| 0 <= j < |pairs| && pairs[j].1 == Some(r);
      assert PairFits(key, pairs[j]) && KeyOf(key, pairs[j]) == k;
      assert i == j;
    }
  }

  /** Every key of either side has exactly one pair. */
  lemma EveryKeyOnce<R(!new), K(!new)>(lt: (K, K) -> bool, key: R -> K, older: seq<R>, newer: seq<R>,
      pairs: seq<Pair<R>>, r: R)
    requires StrictTotal(lt) && IsJoin(lt, key, older, newer, pairs) && (r in older || r in newer)
    ensures exists i :: 0 <= i < |pairs| && KeyOf(key, pairs[i]) == key(r)
    ensures forall i, j :: 0 <= i < |pairs| && 0 <= j < |pairs| && KeyOf(key, pairs[i]) == KeyOf(key, pairs[j]) ==>
        i == j
  {
    if r in older {
      OldsHas(pairs, r);
      var i :| 0 <= i < |pairs| && pairs[i].0 == Some(r);
      assert KeyOf(key, pairs[i]) == key(r);
    } else {
      NewsHas(pairs, r);
      var i :| 0 <= i < |pairs| && pairs[i].1 == Some(r);
      assert PairFits(key, pairs[i]) && KeyOf(key, pairs[i]) == key(r);
    }
  }

  /** What the merge keeps: the pairs made join the rows taken, and every row left comes after them. */
  ghost predicate Merged<R, K>(lt: (K, K) -> bool, key: R -> K, older: seq<R>, newer: seq<R>, i: nat, j: nat,
      pairs: seq<Pair<R>>)
    requires i <= |older| && j <= |newer|
  {
    && IsJoin(lt, key, older[..i], newer[..j], pairs)
    && (forall p, k :: 0 <= p < |pairs| && i <= k < |older| ==> lt(KeyOf(key, pairs[p]), key(older[k])))
    && (forall p, k :: 0 <= p < |pairs| && j <= k < |newer| ==> lt(KeyOf(key, pairs[p]), key(newer[k])))
  }

  lemma Append<R(!new), K(!new)>(lt: (K, K) -> bool, key: R -> K, older: seq<R>, newer: seq<R>, i: nat, j: nat,
      pairs: seq<Pair<R>>,
                      p: Pair<R>)
    requires StrictTotal(lt) && Ordered(lt, key, older) && Ordered(lt, key, newer) && i <= |older| && j <= |newer|
    requires Merged(lt, key, older, newer, i, j, pairs) && PairFits(key, p)
    requires p.0.Some? ==> i < |older| && p.0.value == older[i]
    requires p.1.Some? ==> j < |newer| && p.1.value == newer[j]
    requires p.0.None? && i < |older| ==> lt(KeyOf(key, p), key(older[i]))
    requires p.1.None? && j < |newer| ==> lt(KeyOf(key, p), key(newer[j]))
    ensures var ni, nj := if p.0.Some? then i + 1 else i, if p.1.Some? then j + 1 else j;
      Merged(lt, key, older, newer, ni, nj, pairs + [p])
  {
    AppendSides(pairs, p);
    var more := pairs + [p];
    TakesOne(older, i, p.0);
    TakesOne(newer, j, p.1);
    assert more[|pairs|] == p && forall k :: 0 <= k < |pairs| ==> more[k] == pairs[k];
    AppendOrdered(lt, key, older, newer, i, j, pairs, p);
  }

  lemma TakesOne<R>(rows: seq<R>, i: nat, o: Option<R>)
    requires i <= |rows| && (o.Some? ==> i < |rows| && rows[i] == o.value)
    ensures rows[..i] + Listed(o) == rows[..if o.Some? then i + 1 else i]
  {
  }

  lemma AppendSides<R>(pairs: seq<Pair<R>>, p: Pair<R>)
    ensures Olds(pairs + [p]) == Olds(pairs) + Listed(p.0) && News(pairs + [p]) == News(pairs) + Listed(p.1)
  {
    assert (pairs + [p])[..|pairs|] == pairs;
  }

  /** Every row left still comes after the new pair. */
  lemma AppendOrdered<R(!new), K(!new)>(lt: (K, K) -> bool, key: R -> K, older: seq<R>, newer: seq<R>, i: nat, j: nat,
      pairs: seq<Pair<R>>,
                                        p: Pair<R>)
    requires StrictTotal(lt) && Ordered(lt, key, older) && Ordered(lt, key, newer) && i <= |older| && j <= |newer|
    requires Merged(lt, key, older, newer, i, j, pairs) && PairFits(key, p)
    requires p.0.Some? ==> i < |older| && p.0.value == older[i]
    requires p.1.Some? ==> j < |newer| && p.1.value == newer[j]
    requires p.0.None? && i < |older| ==> lt(KeyOf(key, p), key(older[i]))
    requires p.1.None? && j < |newer| ==> lt(KeyOf(key, p), key(newer[j]))
    ensures forall k :: (if p.0.Some? then i + 1 else i) <= k < |older| ==> lt(KeyOf(key, p), key(older[k]))
    ensures forall k :: (if p.1.Some? then j + 1 else j) <= k < |newer| ==> lt(KeyOf(key, p), key(newer[k]))
    ensures forall k :: 0 <= k < |pairs| ==> lt(KeyOf(key, pairs[k]), KeyOf(key, p))
  {
  }

  /** The merge of two ordered streams is their full outer join in key order. */
  method Paired<R(!new), K(!new)>(lt: (K, K) -> bool, key: R -> K, older: seq<R>, newer: seq<R>)
      returns (pairs: seq<Pair<R>>)
    requires StrictTotal(lt) && Ordered(lt, key, older) && Ordered(lt, key, newer)
    ensures IsJoin(lt, key, older, newer, pairs)
  {
    pairs := [];
    var i, j := 0, 0;
    while i < |older| || j < |newer|
      invariant 0 <= i <= |older| && 0 <= j <= |newer|
      invariant Merged(lt, key, older, newer, i, j, pairs)
      decreases |older| - i + |newer| - j
    {
      if j == |newer| || (i < |older| && lt(key(older[i]), key(newer[j]))) {
        Append(lt, key, older, newer, i, j, pairs, (Some(older[i]), None));
        pairs := pairs + [(Some(older[i]), None)];
        i := i + 1;
      } else if i == |older| || lt(key(newer[j]), key(older[i])) {
        Append(lt, key, older, newer, i, j, pairs, (None, Some(newer[j])));
        pairs := pairs + [(None, Some(newer[j]))];
        j := j + 1;
      } else {
        Append(lt, key, older, newer, i, j, pairs, (Some(older[i]), Some(newer[j])));
        pairs := pairs + [(Some(older[i]), Some(newer[j]))];
        i, j := i + 1, j + 1;
      }
    }
    assert older[..i] == older && newer[..j] == newer;
  }
}
