/** Strict total orders, lexicographic order, the one ascending listing of a finite set, sorting by a key that may
    tie, and lists without repeats. */
module Ordering {
  ghost predicate StrictTotal<T(!new)>(lt: (T, T) -> bool) {
    && (forall a, b :: lt(a, b) ==> !lt(b, a))
    && (forall a, b :: a == b || lt(a, b) || lt(b, a))
    && (forall a, b, c :: lt(a, b) && lt(b, c) ==> lt(a, c))
  }

  predicate Ascending<T>(lt: (T, T) -> bool, s: seq<T>) { forall i, j :: 0 <= i < j < |s| ==> lt(s[i], s[j]) }

  predicate IsLeast<T(==)>(lt: (T, T) -> bool, s: set<T>, m: T) { m in s && forall k | k in s :: k == m || lt(m, k) }

  lemma {:induction false} LeastExists<T(!new)>(lt: (T, T) -> bool, s: set<T>)
    requires StrictTotal(lt) && s != {}
    ensures exists m :: IsLeast(lt, s, m)
    decreases |s|
  {
    var x :| x in s;
    if s == {x} {
      assert IsLeast(lt, s, x);
    } else {
      var rest := s - {x};
      assert rest + {x} == s;
      LeastExists(lt, rest);
      var least :| IsLeast(lt, rest, least);
      assert IsLeast(lt, s, if lt(x, least) then x else least);
    }
  }

  function Least<T(==, !new)>(lt: (T, T) -> bool, s: set<T>): (m: T)
    requires StrictTotal(lt) && s != {}
    ensures IsLeast(lt, s, m)
  {
    LeastExists(lt, s);
    var m :| m in s && IsLeast(lt, s, m);
    m
  }

  /** The elements of a set in ascending order. */
  function Listing<T(==, !new)>(lt: (T, T) -> bool, s: set<T>): (r: seq<T>)
    requires StrictTotal(lt)
    ensures Ascending(lt, r) && (forall x :: x in s <==> x in r) && |r| == |s|
    decreases |s|
  {
    if s == {} then []
    else
      var m := Least(lt, s);
      var rest := Listing(lt, s - {m});
      assert forall i :: 0 <= i < |rest| ==> rest[i] in s - {m};
      [m] + rest
  }

  /** There is only one ascending listing. */
  lemma {:induction false} OneListing<T(!new)>(lt: (T, T) -> bool, a: seq<T>, b: seq<T>)
    requires StrictTotal(lt) && Ascending(lt, a) && Ascending(lt, b) && forall x :: x in a <==> x in b
    ensures a == b
  {
    assert a != [] ==> a[0] in b;
    assert b != [] ==> b[0] in a;
    if a != [] && b != [] {
      assert a[0] == b[0];
      forall x ensures x in a[1..] <==> x in b[1..] {
        if x in a[1..] { assert lt(a[0], x) && x in b && x != b[0]; }
        if x in b[1..] { assert lt(b[0], x) && x in a && x != a[0]; }
      }
      OneListing(lt, a[1..], b[1..]);
      assert a == [a[0]] + a[1..] && b == [b[0]] + b[1..];
    }
  }

  /** Lexicographic order; a proper prefix comes first. */
  predicate Before(a: seq<int>, b: seq<int>) {
    b != [] && (a == [] || a[0] < b[0] || (a[0] == b[0] && Before(a[1..], b[1..])))
  }

  lemma {:induction false} BeforeAsymmetric(a: seq<int>, b: seq<int>)
    ensures !(Before(a, b) && Before(b, a))
  {
    if a != [] && b != [] { BeforeAsymmetric(a[1..], b[1..]); }
  }

  lemma {:induction false} BeforeTotal(a: seq<int>, b: seq<int>)
    ensures a == b || Before(a, b) || Before(b, a)
  {
    if a != [] && b != [] && a[0] == b[0] {
      BeforeTotal(a[1..], b[1..]);
      if a[1..] == b[1..] { assert a == [a[0]] + a[1..] && b == [b[0]] + b[1..]; }
    }
  }

  lemma {:induction false} BeforeTransitive(a: seq<int>, b: seq<int>, c: seq<int>)
    requires Before(a, b) && Before(b, c)
    ensures Before(a, c)
  {
    if a != [] && a[0] == b[0] && b[0] == c[0] { BeforeTransitive(a[1..], b[1..], c[1..]); }
  }

  lemma BeforeStrictTotal()
    ensures StrictTotal(Before)
  {
    forall a: seq<int>, b: seq<int>
        ensures !(Before(a, b) && Before(b, a)) && (a == b || Before(a, b) || Before(b, a)) {
      BeforeAsymmetric(a, b);
      BeforeTotal(a, b);
    }
    forall a: seq<int>, b: seq<int>, c: seq<int> | Before(a, b) && Before(b, c) ensures Before(a, c) {
      BeforeTransitive(a, b, c);
    }
  }

  function Codes(s: string): (r: seq<int>)
    ensures |r| == |s| && forall i :: 0 <= i < |s| ==> r[i] == s[i] as int
  {
    seq(|s|, i requires 0 <= i < |s| => s[i] as int)
  }

  /** Python's order of strings: by code point. */
  predicate StringBefore(a: string, b: string) { Before(Codes(a), Codes(b)) }

  lemma CodesInjective(a: string, b: string)
    requires Codes(a) == Codes(b)
    ensures a == b
  {
    forall i | 0 <= i < |a| ensures a[i] == b[i] { assert Codes(a)[i] == Codes(b)[i]; }
  }

  lemma StringsStrictTotal()
    ensures StrictTotal(StringBefore)
  {
    BeforeStrictTotal();
    forall a: string, b: string ensures a == b || StringBefore(a, b) || StringBefore(b, a) {
      if Codes(a) == Codes(b) { CodesInjective(a, b); }
    }
    forall a: string, b: string, c: string | StringBefore(a, b) && StringBefore(b, c) ensures StringBefore(a, c) {
      BeforeTransitive(Codes(a), Codes(b), Codes(c));
    }
    forall a: string, b: string | StringBefore(a, b) ensures !StringBefore(b, a) {
      BeforeAsymmetric(Codes(a), Codes(b));
    }
  }

  /** `sorted` of distinct strings. */
  function Sorted(s: set<string>): (r: seq<string>)
    ensures Ascending(StringBefore, r) && (forall x :: x in s <==> x in r) && |r| == |s|
  {
    StringsStrictTotal();
    Listing(StringBefore, s)
  }

  // ----- lists without repeats -----

  function Elements(names: seq<string>): set<string> { set k | k in names }

  predicate AllDistinct(names: seq<string>) { forall i, j :: 0 <= i < j < |names| ==> names[i] != names[j] }

  lemma {:induction false} DistinctCount(names: seq<string>)
    ensures |Elements(names)| <= |names|
    ensures |Elements(names)| == |names| <==> AllDistinct(names)
  {
    if names != [] {
      var n := |names| - 1;
      DistinctCount(names[..n]);
      assert Elements(names) == Elements(names[..n]) + {names[n]};
      DistinctLast(names);
    }
  }

  lemma DistinctLast(names: seq<string>)
    requires names != []
    ensures AllDistinct(names) <==>
        AllDistinct(names[..|names| - 1]) && names[|names| - 1] !in Elements(names[..|names| - 1])
  {
    var n := |names| - 1;
    assert forall i :: 0 <= i < n ==> names[..n][i] == names[i];
    if AllDistinct(names[..n]) && names[n] !in Elements(names[..n]) {
      forall i, j | 0 <= i < j < |names| ensures names[i] != names[j] {
        assert names[..n][i] in Elements(names[..n]);
      }
    }
  }

  // ----- sorting by a key that may tie -----

  ghost predicate WeakOrder<T(!new)>(lt: (T, T) -> bool) {
    && (forall a, b :: lt(a, b) ==> !lt(b, a))
    && (forall a, b, c :: !lt(a, b) && !lt(b, c) ==> !lt(a, c))
  }

  predicate Rising<T>(lt: (T, T) -> bool, s: seq<T>) { forall i, j :: 0 <= i < j < |s| ==> !lt(s[j], s[i]) }

  method Sort<T(!new)>(lt: (T, T) -> bool, s: seq<T>) returns (r: seq<T>)
    requires WeakOrder(lt)
    ensures multiset(r) == multiset(s) && Rising(lt, r)
  {
    r := [];
    var n := 0;
    while n < |s|
      invariant 0 <= n <= |s| && multiset(r) == multiset(s[..n]) && Rising(lt, r)
    {
      assert s[..n + 1] == s[..n] + [s[n]];
      r := Insert(lt, r, s[n]);
      n := n + 1;
    }
    assert s[..n] == s;
  }

  method Insert<T(!new)>(lt: (T, T) -> bool, r: seq<T>, x: T) returns (s: seq<T>)
    requires WeakOrder(lt) && Rising(lt, r)
    ensures Rising(lt, s) && multiset(s) == multiset(r) + multiset{x}
  {
    var k := |r|;
    while k > 0 && lt(x, r[k - 1])
      invariant 0 <= k <= |r|
      invariant forall i :: k <= i < |r| ==> lt(x, r[i])
    {
      k := k - 1;
    }
    s := r[..k] + [x] + r[k..];
    assert r == r[..k] + r[k..];
    Placed(lt, r, x, k, s);
  }

  lemma Placed<T(!new)>(lt: (T, T) -> bool, r: seq<T>, x: T, k: nat, s: seq<T>)
    requires WeakOrder(lt) && Rising(lt, r) && k <= |r| && s == r[..k] + [x] + r[k..]
    requires k > 0 ==> !lt(x, r[k - 1])
    requires forall i :: k <= i < |r| ==> lt(x, r[i])
    ensures Rising(lt, s)
  {
    forall i | 0 <= i < k ensures !lt(x, r[i]) {
      if i < k - 1 { assert !lt(r[k - 1], r[i]); }
    }
    forall i, j | 0 <= i < j < |s| ensures !lt(s[j], s[i]) {
      var a, b := if i <= k then i else i - 1, if j <= k then j else j - 1;
      if i != k && j != k { assert s[i] == r[a] && s[j] == r[b] && a < b; }
    }
  }
}
