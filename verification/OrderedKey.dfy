/** Keys of text parts as bytes whose order is the order of the parts. */
module OrderedKey {
  import opened Prelude
  import opened Ordering

  /** Text by code points; a lone surrogate is a code point here, as it is in Python. */
  type Text = seq<int>

  datatype Error = NoParts | EmptyPart | LoneSurrogate | Duplicate | Absent | Full

  predicate IsSurrogate(cp: int) { 0xD800 <= cp < 0xE000 }

  predicate IsCodePoint(cp: int) { 0 <= cp < 0x11_0000 }

  predicate Encodable(t: Text) { forall i :: 0 <= i < |t| ==> IsCodePoint(t[i]) && !IsSurrogate(t[i]) }

  predicate IsSpace(cp: int) {
    9 <= cp <= 13 || 28 <= cp <= 32 || cp in [0x85, 0xA0, 0x1680, 0x2028, 0x2029, 0x202F, 0x205F, 0x3000] ||
        0x2000 <= cp <= 0x200A
  }

  predicate Blank(t: Text) { forall i :: 0 <= i < |t| ==> IsSpace(t[i]) }

  function UnitsOf(cp: int): seq<int> {
    if cp < 0x1_0000 then [cp] else [0xD800 + (cp - 0x1_0000) / 0x400, 0xDC00 + (cp - 0x1_0000) % 0x400]
  }

  /** UTF-16 code units. */
  function Units(t: Text): seq<int> { if t == [] then [] else UnitsOf(t[0]) + Units(t[1..]) }

  function AllUnits(parts: seq<Text>): (r: seq<seq<int>>)
    ensures |r| == |parts| && forall i :: 0 <= i < |r| ==> r[i] == Units(parts[i])
  {
    seq(|parts|, i requires 0 <= i < |parts| => Units(parts[i]))
  }

  predicate AreUnits(u: seq<int>) { forall i :: 0 <= i < |u| ==> 0 <= u[i] < 0x1_0000 }

  // ----- the bytes -----

  /** A byte plus one, in two bytes: never two zeros. */
  function BytePair(b: int): seq<int> { [(b + 1) / 256 % 256, (b + 1) % 256] }

  function UnitBytes(u: int): seq<int> { BytePair(u / 256) + BytePair(u % 256) }

  function PartBytes(u: seq<int>): seq<int> { if u == [] then [0, 0] else UnitBytes(u[0]) + PartBytes(u[1..]) }

  function KeyBytes(parts: seq<seq<int>>): seq<int> {
    if parts == [] then [] else PartBytes(parts[0]) + KeyBytes(parts[1..])
  }

  function UnitsBytes(u: seq<int>): seq<int> {
    if u == [] then [] else UnitsBytes(u[..|u| - 1]) + UnitBytes(u[|u| - 1])
  }

  lemma {:induction false} PartIsUnitsThenEnd(u: seq<int>)
    ensures PartBytes(u) == UnitsBytes(u) + [0, 0]
  {
    PartAppends(u, u);
    assert u[|u|..] == [];
  }

  lemma {:induction false} PartAppends(u: seq<int>, front: seq<int>)
    requires front <= u
    ensures PartBytes(u) == UnitsBytes(front) + PartBytes(u[|front|..])
    decreases |front|
  {
    if front == [] {
      assert u[0..] == u;
    } else {
      var n := |front| - 1;
      PartAppends(u, front[..n]);
      assert u[n..][1..] == u[|front|..] && u[n..][0] == front[n];
    }
  }

  function OkKey(parts: seq<Text>): Result<seq<int>, Error> {
    if parts == [] then Err(NoParts) else KeyFrom(parts, parts)
  }

  /** The first part at fault decides. */
  function KeyFrom(parts: seq<Text>, left: seq<Text>): Result<seq<int>, Error> {
    if left == [] then Ok(KeyBytes(AllUnits(parts)))
    else if Blank(left[0]) then Err(EmptyPart)
    else if !Encodable(left[0]) then Err(LoneSurrogate)
    else KeyFrom(parts, left[1..])
  }

  predicate IsKey(parts: seq<Text>) {
    parts != [] && forall i :: 0 <= i < |parts| ==> !Blank(parts[i]) && Encodable(parts[i])
  }

  lemma {:induction false} KeyFromOk(parts: seq<Text>, left: seq<Text>)
    ensures KeyFrom(parts, left).Ok? <==> forall i :: 0 <= i < |left| ==> !Blank(left[i]) && Encodable(left[i])
    ensures KeyFrom(parts, left).Ok? ==> KeyFrom(parts, left).value == KeyBytes(AllUnits(parts))
  {
    if left != [] {
      KeyFromOk(parts, left[1..]);
      assert forall i :: 1 <= i < |left| ==> left[i] == left[1..][i - 1];
    }
  }

  lemma {:induction false} KeyBytesAppends(a: seq<seq<int>>, u: seq<int>)
    ensures KeyBytes(a + [u]) == KeyBytes(a) + PartBytes(u)
  {
    if a == [] {
      assert [u][1..] == [] && a + [u] == [u];
    } else {
      assert (a + [u])[1..] == a[1..] + [u];
      KeyBytesAppends(a[1..], u);
    }
  }

  method Encode(parts: seq<Text>) returns (r: Result<seq<int>, Error>)
    ensures r == OkKey(parts)
  {
    if parts == [] { return Err(NoParts); }
    var result: seq<int> := [];
    var i := 0;
    assert parts[0..] == parts;
    while i < |parts|
      invariant 0 <= i <= |parts|
      invariant result == KeyBytes(AllUnits(parts)[..i])
      invariant KeyFrom(parts, parts) == KeyFrom(parts, parts[i..])
    {
      assert parts[i..][0] == parts[i] && parts[i..][1..] == parts[i + 1..];
      if Blank(parts[i]) { return Err(EmptyPart); }
      if !Encodable(parts[i]) { return Err(LoneSurrogate); }
      var u := Units(parts[i]);
      var bytes := PairUp(u);
      KeyBytesAppends(AllUnits(parts)[..i], u);
      assert AllUnits(parts)[..i + 1] == AllUnits(parts)[..i] + [u];
      PartIsUnitsThenEnd(u);
      result := result + bytes;
      result := result + [0, 0];
      i := i + 1;
    }
    assert AllUnits(parts)[..i] == AllUnits(parts);
    r := Ok(result);
  }

  method PairUp(u: seq<int>) returns (bytes: seq<int>)
    ensures bytes == UnitsBytes(u)
  {
    bytes := [];
    var i := 0;
    while i < |u|
      invariant 0 <= i <= |u| && bytes == UnitsBytes(u[..i])
    {
      assert u[..i + 1][..i] == u[..i];
      bytes := bytes + UnitBytes(u[i]);
      i := i + 1;
    }
    assert u[..i] == u;
  }

  // ----- the order -----

  /** Lexicographic order of tuples, part by part. */
  predicate TupleBefore(p: seq<seq<int>>, q: seq<seq<int>>) {
    q != [] && (p == [] || Before(p[0], q[0]) || (p[0] == q[0] && TupleBefore(p[1..], q[1..])))
  }

  lemma {:induction false} BeforePrefix(p: seq<int>, x: seq<int>, y: seq<int>)
    ensures Before(p + x, p + y) <==> Before(x, y)
  {
    if p == [] {
      assert p + x == x && p + y == y;
    } else {
      assert (p + x)[1..] == p[1..] + x && (p + y)[1..] == p[1..] + y;
      BeforePrefix(p[1..], x, y);
    }
  }

  lemma PairBefore(a: int, b: int, x: seq<int>, y: seq<int>)
    requires 0 <= a < b < 256
    ensures Before(BytePair(a) + x, BytePair(b) + y)
  {
    var s, t := BytePair(a) + x, BytePair(b) + y;
    assert s[0] == BytePair(a)[0] && t[0] == BytePair(b)[0];
    assert s[1..][0] == BytePair(a)[1] && t[1..][0] == BytePair(b)[1];
  }

  lemma EndBefore(b: int, x: seq<int>, y: seq<int>)
    requires 0 <= b < 256
    ensures Before([0, 0] + x, BytePair(b) + y)
  {
    var s, t := [0, 0] + x, BytePair(b) + y;
    assert s[1..][0] == 0 && t[1..][0] == BytePair(b)[1];
  }

  lemma UnitBefore(a: int, b: int, x: seq<int>, y: seq<int>)
    requires 0 <= a < b < 0x1_0000
    ensures Before(UnitBytes(a) + x, UnitBytes(b) + y)
  {
    var lowA, lowB := BytePair(a % 256) + x, BytePair(b % 256) + y;
    assert UnitBytes(a) + x == BytePair(a / 256) + lowA && UnitBytes(b) + y == BytePair(b / 256) + lowB;
    if a / 256 == b / 256 {
      PairBefore(a % 256, b % 256, x, y);
      BeforePrefix(BytePair(a / 256), lowA, lowB);
    } else {
      PairBefore(a / 256, b / 256, lowA, lowB);
    }
  }

  /** The encoding of a part, whatever follows it, orders by the part first. */
  lemma {:induction false} PartOrder(u: seq<int>, v: seq<int>, x: seq<int>, y: seq<int>)
    requires AreUnits(u) && AreUnits(v)
    ensures Before(PartBytes(u) + x, PartBytes(v) + y) <==> Before(u, v) || (u == v && Before(x, y))
    decreases |u|
  {
    if u == [] && v == [] {
      BeforePrefix([0, 0], x, y);
    } else if u == [] {
      EndBeforePart(v, x, y);
    } else if v == [] {
      EndBeforePart(u, y, x);
      BeforeAsymmetric(PartBytes(v) + y, PartBytes(u) + x);
    } else {
      SplitPart(u, x);
      SplitPart(v, y);
      FirstUnits(u[0], v[0], PartBytes(u[1..]) + x, PartBytes(v[1..]) + y);
      if u[0] == v[0] {
        PartOrder(u[1..], v[1..], x, y);
        assert u[1..] == v[1..] <==> u == v by { assert u == [u[0]] + u[1..] && v == [v[0]] + v[1..]; }
      }
    }
  }

  lemma SplitPart(u: seq<int>, x: seq<int>)
    requires u != []
    ensures PartBytes(u) + x == UnitBytes(u[0]) + (PartBytes(u[1..]) + x)
  {
  }

  lemma FirstUnits(a: int, b: int, x: seq<int>, y: seq<int>)
    requires 0 <= a < 0x1_0000 && 0 <= b < 0x1_0000
    ensures Before(UnitBytes(a) + x, UnitBytes(b) + y) <==> a < b || (a == b && Before(x, y))
  {
    if a == b {
      BeforePrefix(UnitBytes(a), x, y);
    } else if a < b {
      UnitBefore(a, b, x, y);
    } else {
      UnitBefore(b, a, y, x);
      BeforeAsymmetric(UnitBytes(b) + y, UnitBytes(a) + x);
    }
  }

  lemma EndBeforePart(v: seq<int>, x: seq<int>, y: seq<int>)
    requires AreUnits(v) && v != []
    ensures Before(PartBytes([]) + x, PartBytes(v) + y)
  {
    var more := BytePair(v[0] % 256) + (PartBytes(v[1..]) + y);
    assert PartBytes(v) + y == BytePair(v[0] / 256) + more;
    EndBefore(v[0] / 256, x, more);
  }

  ghost predicate AreTuples(p: seq<seq<int>>) { forall i :: 0 <= i < |p| ==> AreUnits(p[i]) }

  /** The bytes of two keys compare as the keys do. */
  lemma {:induction false} BytesOrder(p: seq<seq<int>>, q: seq<seq<int>>)
    requires AreTuples(p) && AreTuples(q)
    ensures Before(KeyBytes(p), KeyBytes(q)) <==> TupleBefore(p, q)
    decreases |p|
  {
    if p != [] && q != [] {
      PartOrder(p[0], q[0], KeyBytes(p[1..]), KeyBytes(q[1..]));
      BytesOrder(p[1..], q[1..]);
    } else if q != [] {
      assert KeyBytes(q) != [] by { assert |PartBytes(q[0])| >= 2; }
    }
  }

  lemma {:induction false} TupleTotal(p: seq<seq<int>>, q: seq<seq<int>>)
    ensures p == q || TupleBefore(p, q) || TupleBefore(q, p)
  {
    if p != [] && q != [] {
      BeforeTotal(p[0], q[0]);
      TupleTotal(p[1..], q[1..]);
      if p[0] == q[0] && p[1..] == q[1..] { assert p == [p[0]] + p[1..] && q == [q[0]] + q[1..]; }
    }
  }

  // ----- the same for text -----

  lemma {:induction false} UnitsAreUnits(t: Text)
    requires Encodable(t)
    ensures AreUnits(Units(t))
  {
    if t != [] { UnitsAreUnits(t[1..]); }
  }

  lemma {:induction false} UnitsInjective(a: Text, b: Text)
    requires Encodable(a) && Encodable(b) && Units(a) == Units(b)
    ensures a == b
  {
    if a != [] && b != [] {
      var x, y := UnitsOf(a[0]), UnitsOf(b[0]);
      assert Units(a)[0] == x[0] && Units(b)[0] == y[0];
      if |x| == 2 && |y| == 2 { assert Units(a)[1] == x[1] && Units(b)[1] == y[1]; }
      assert a[0] == b[0];
      assert Units(a)[|x|..] == Units(a[1..]) && Units(b)[|x|..] == Units(b[1..]);
      UnitsInjective(a[1..], b[1..]);
      assert a == [a[0]] + a[1..] && b == [b[0]] + b[1..];
    }
  }

  function Key(parts: seq<Text>): seq<int> { KeyBytes(AllUnits(parts)) }

  /** The order of keys: parts compared by UTF-16 code units. */
  predicate KeyBefore(a: seq<Text>, b: seq<Text>) { TupleBefore(AllUnits(a), AllUnits(b)) }

  lemma KeysAreTuples(parts: seq<Text>)
    requires IsKey(parts)
    ensures AreTuples(AllUnits(parts))
  {
    forall i | 0 <= i < |parts| ensures AreUnits(AllUnits(parts)[i]) { UnitsAreUnits(parts[i]); }
  }

  /** Encoded keys order as their tuples, and no two tuples have one encoding. */
  lemma KeyOrder(a: seq<Text>, b: seq<Text>)
    requires IsKey(a) && IsKey(b)
    ensures Before(Key(a), Key(b)) <==> KeyBefore(a, b)
    ensures Key(a) == Key(b) <==> a == b
  {
    var p, q := AllUnits(a), AllUnits(b);
    KeysAreTuples(a);
    KeysAreTuples(b);
    BytesOrder(p, q);
    BytesOrder(q, p);
    TupleTotal(p, q);
    BeforeAsymmetric(Key(a), Key(a));
    if Key(a) == Key(b) {
      assert p == q;
      forall i | 0 <= i < |a| ensures a[i] == b[i] {
        assert p[i] == q[i];
        UnitsInjective(a[i], b[i]);
      }
    }
  }

  /** The key of a tuple, or the error, in terms of the tuple alone. */
  lemma KeyMeans(parts: seq<Text>)
    ensures OkKey(parts).Ok? <==> IsKey(parts)
    ensures OkKey(parts).Ok? ==> OkKey(parts).value == Key(parts)
  {
    KeyFromOk(parts, parts);
  }

  /** The order is not that of code points: U+10000 sorts before U+FFFD. */
  lemma NotCodePointOrder()
    ensures var a, b := [[0xFFFD]], [[0x1_0000]];
      IsKey(a) && IsKey(b) && Before(a[0], b[0]) && KeyBefore(b, a)
  {
    var a, b := [[0xFFFD]], [[0x1_0000]];
    assert Units(a[0]) == [0xFFFD] + Units([]) && Units(b[0]) == [0xD800, 0xDC00] + Units([]);
    assert AllUnits(a)[0][0] == 0xFFFD && AllUnits(b)[0][0] == 0xD800;
    assert !IsSpace(a[0][0]) && !IsSpace(b[0][0]);
  }
}
