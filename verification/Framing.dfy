/** The incremental hasher of framed records: what it feeds to the hash is the batch form, and that form is
    injective. */
module Framing {
  import opened Prelude

  type Bytes = seq<int>

  const LIMIT := 0x1_0000_0000_0000_0000

  /** Big-endian in `n` bytes. */
  function Be(value: nat, n: nat): (b: Bytes)
    ensures |b| == n
  {
    if n == 0 then [] else Be(value / 256, n - 1) + [value % 256]
  }

  function FromBe(b: Bytes): int { if b == [] then 0 else FromBe(b[..|b| - 1]) * 256 + b[|b| - 1] }

  function Power(n: nat): nat { if n == 0 then 1 else 256 * Power(n - 1) }

  lemma {:induction false} BeReads(value: nat, n: nat)
    requires value < Power(n)
    ensures FromBe(Be(value, n)) == value
  {
    if n > 0 {
      BeReads(value / 256, n - 1);
      var b := Be(value, n);
      assert b[..|b| - 1] == Be(value / 256, n - 1);
    }
  }

  function U64(value: nat): Bytes { Be(value, 8) }

  lemma U64Injective(a: nat, b: nat)
    requires a < LIMIT && b < LIMIT && U64(a) == U64(b)
    ensures a == b
  {
    assert Power(8) == LIMIT by {
      assert Power(2) == 0x1_0000 && Power(4) == 0x1_0000_0000;
      assert Power(6) == 0x1_0000_0000_0000;
    }
    BeReads(a, 8);
    BeReads(b, 8);
  }

  /** A length and what it is the length of. */
  function Frame(p: Bytes): Bytes { U64(|p|) + p }

  function Frames(payloads: seq<Bytes>): Bytes {
    if payloads == [] then [] else Frames(payloads[..|payloads| - 1]) + Frame(payloads[|payloads| - 1])
  }

  function Header(domain: Bytes, name: Bytes, count: nat): Bytes { domain + [0] + Frame(name) + U64(count) }

  /** The batch form of one section. */
  function Framed(domain: Bytes, name: Bytes, payloads: seq<Bytes>): Bytes {
    Header(domain, name, |payloads|) + Frames(payloads)
  }

  // ----- injectivity -----

  predicate Short(p: Bytes) { |p| < LIMIT }

  /** Frames in order from the front. */
  function FramesFrom(payloads: seq<Bytes>): Bytes {
    if payloads == [] then [] else Frame(payloads[0]) + FramesFrom(payloads[1..])
  }

  lemma {:induction false} FramesForward(front: seq<Bytes>, payloads: seq<Bytes>)
    ensures Frames(front) + FramesFrom(payloads) == Frames(front + payloads)
    decreases |payloads|
  {
    if payloads == [] {
      assert front + payloads == front;
    } else {
      var more := front + [payloads[0]];
      assert more[..|more| - 1] == front && front + payloads == more + payloads[1..];
      FramesForward(more, payloads[1..]);
    }
  }

  lemma FrameInjective(p: Bytes, x: Bytes, q: Bytes, y: Bytes)
    requires Short(p) && Short(q) && Frame(p) + x == Frame(q) + y
    ensures p == q && x == y
  {
    var s, t := Frame(p) + x, Frame(q) + y;
    assert s[..8] == U64(|p|) && t[..8] == U64(|q|);
    U64Injective(|p|, |q|);
    assert s[8..8 + |p|] == p && t[8..8 + |q|] == q;
    assert s[8 + |p|..] == x && t[8 + |q|..] == y;
  }

  lemma {:induction false} FramesInjective(a: seq<Bytes>, b: seq<Bytes>)
    requires |a| == |b| && FramesFrom(a) == FramesFrom(b)
    requires forall i :: 0 <= i < |a| ==> Short(a[i]) && Short(b[i])
    ensures a == b
  {
    if a != [] {
      FrameInjective(a[0], FramesFrom(a[1..]), b[0], FramesFrom(b[1..]));
      FramesInjective(a[1..], b[1..]);
      assert a == [a[0]] + a[1..] && b == [b[0]] + b[1..];
    }
  }

  /** What stands before the first mark, and what follows it. */
  lemma MarkSplits(mark: int, c: Bytes, x: Bytes, d: Bytes, y: Bytes)
    requires mark !in c && mark !in d && c + [mark] + x == d + [mark] + y
    ensures c == d && x == y
  {
    var s, t := c + [mark] + x, d + [mark] + y;
    assert s[|c|] == mark && t[|d|] == mark;
    assert forall i :: 0 <= i < |c| ==> s[i] == c[i] && c[i] in c;
    assert forall i :: 0 <= i < |d| ==> t[i] == d[i] && d[i] in d;
    assert c == s[..|c|] && d == t[..|d|] && x == s[|c| + 1..] && y == t[|d| + 1..];
  }

  lemma Shape(domain: Bytes, name: Bytes, payloads: seq<Bytes>)
    ensures Framed(domain, name, payloads) == domain + [0] + (Frame(name) + (U64(|payloads|) + FramesFrom(payloads)))
  {
    FramesForward([], payloads);
    assert [] + payloads == payloads;
    Regroups(domain + [0], Frame(name), U64(|payloads|), FramesFrom(payloads));
  }

  lemma Regroups(a: Bytes, b: Bytes, c: Bytes, d: Bytes)
    ensures a + b + c + d == a + (b + (c + d))
  {
  }

  /** Nothing else is fed to the hash for another section, as long as the domains have no zero byte. */
  lemma FramedInjective(c: Bytes, m: Bytes, a: seq<Bytes>, d: Bytes, n: Bytes, b: seq<Bytes>)
    requires 0 !in c && 0 !in d && Short(m) && Short(n) && |a| < LIMIT && |b| < LIMIT
    requires forall i :: 0 <= i < |a| ==> Short(a[i])
    requires forall i :: 0 <= i < |b| ==> Short(b[i])
    ensures Framed(c, m, a) == Framed(d, n, b) <==> c == d && m == n && a == b
  {
    if Framed(c, m, a) == Framed(d, n, b) {
      Shape(c, m, a);
      Shape(d, n, b);
      var x, y := U64(|a|) + FramesFrom(a), U64(|b|) + FramesFrom(b);
      MarkSplits(0, c, Frame(m) + x, d, Frame(n) + y);
      FrameInjective(m, x, n, y);
      assert x[..8] == U64(|a|) && y[..8] == U64(|b|);
      U64Injective(|a|, |b|);
      assert x[8..] == FramesFrom(a) && y[8..] == FramesFrom(b);
      FramesInjective(a, b);
    }
  }

  /** With a zero byte in the domain two sections can feed the same bytes. */
  lemma NulCollides()
    ensures Framed([], [0, 0, 0, 0, 0, 0, 0, 0, 0], []) == Framed([0, 0, 0, 0, 0, 0, 0, 0, 9], [], [])
  {
    assert U64(0) == [0, 0, 0, 0, 0, 0, 0, 0] && U64(9) == [0, 0, 0, 0, 0, 0, 0, 9] by {
      assert Be(0, 1) == [0] && Be(0, 2) == [0, 0] && Be(0, 4) == [0, 0, 0, 0] && Be(0, 6) == [0, 0, 0, 0, 0, 0];
      assert Be(0, 7) == [0, 0, 0, 0, 0, 0, 0];
    }
  }

  // ----- the hasher -----

  datatype Error = BadCount | TooMany | WrongCount

  class Hasher {
    const domain: Bytes
    const name: Bytes
    const count: nat
    var fed: Bytes
    var observed: nat
    ghost var payloads: seq<Bytes>

    constructor (domain: Bytes, name: Bytes, count: nat)
      ensures this.domain == domain && this.name == name && this.count == count
      ensures Valid() && payloads == [] && observed == 0
    {
      this.domain, this.name, this.count := domain, name, count;
      fed := domain + [0] + (U64(|name|) + name) + U64(count);
      observed, payloads := 0, [];
    }

    ghost predicate Valid()
      reads this
    {
      fed == Header(domain, name, count) + Frames(payloads) && |payloads| == if observed <= count then observed
          else count
    }

    /** One more payload; past the declared count it is refused, and the section can no longer be sealed. */
    method AddPayload(p: Bytes) returns (r: Result<(), Error>)
      requires Valid()
      modifies this
      ensures Valid() && observed == old(observed) + 1
      ensures r == if old(observed) < count then Ok(()) else Err(TooMany)
      ensures payloads == if r.Ok? then old(payloads) + [p] else old(payloads)
    {
      observed := observed + 1;
      if observed > count { return Err(TooMany); }
      fed := fed + U64(|p|);
      fed := fed + p;
      assert (payloads + [p])[..|payloads|] == payloads;
      payloads := payloads + [p];
      r := Ok(());
    }

    /** The bytes the digest is taken of, when as many records came as were declared. */
    method Digest() returns (r: Result<Bytes, Error>)
      requires Valid()
      ensures r == if observed == count then Ok(Framed(domain, name, payloads)) else Err(WrongCount)
    {
      if observed != count { return Err(WrongCount); }
      r := Ok(fed);
    }
  }

  /** The count is checked before anything is hashed. */
  method Open(domain: Bytes, name: Bytes, count: int) returns (r: Result<Hasher, Error>)
    ensures r.Ok? <==> count >= 0
    ensures r.Ok? ==> fresh(r.value) && r.value.Valid() && r.value.payloads == [] && r.value.observed == 0
    ensures r.Ok? ==> r.value.domain == domain && r.value.name == name && r.value.count == count
  {
    if count < 0 { return Err(BadCount); }
    var h := new Hasher(domain, name, count);
    r := Ok(h);
  }

  /** A whole section through the hasher is its batch form. */
  method Seal(domain: Bytes, name: Bytes, payloads: seq<Bytes>) returns (r: Bytes)
    ensures r == Framed(domain, name, payloads)
  {
    var h := new Hasher(domain, name, |payloads|);
    var i := 0;
    while i < |payloads|
      invariant 0 <= i <= |payloads| && h.Valid() && fresh(h)
      invariant h.domain == domain && h.name == name && h.count == |payloads|
      invariant h.observed == i && h.payloads == payloads[..i]
    {
      var added := h.AddPayload(payloads[i]);
      i := i + 1;
    }
    assert payloads[..i] == payloads;
    var digest := h.Digest();
    r := digest.value;
  }
}
