/** Largest-remainder apportionment over exact fractions: every key gets one, the rest goes by weight. */
module Apportionment {
  import opened Ordering

  // ----- sums -----

  function Sum(f: string -> int, s: set<string>): int
    decreases |s|
  {
    if s == {} then 0 else
      StringsStrictTotal();
      var k := Least(StringBefore, s);
      f(k) + Sum(f, s - {k})
  }

  lemma {:induction false} SumTakesOut(f: string -> int, s: set<string>, x: string)
    requires x in s
    ensures Sum(f, s) == f(x) + Sum(f, s - {x})
    decreases |s|
  {
    StringsStrictTotal();
    var k := Least(StringBefore, s);
    if k != x {
      SumTakesOut(f, s - {k}, x);
      SumTakesOut(f, s - {x}, k);
      assert s - {k} - {x} == s - {x} - {k};
    }
  }

  lemma {:induction false} SumSame(f: string -> int, g: string -> int, s: set<string>)
    requires forall k :: k in s ==> f(k) == g(k)
    ensures Sum(f, s) == Sum(g, s)
    decreases |s|
  {
    if s != {} {
      StringsStrictTotal();
      SumSame(f, g, s - {Least(StringBefore, s)});
    }
  }

  lemma {:induction false} SumAdds(f: string -> int, g: string -> int, h: string -> int, s: set<string>)
    requires forall k :: k in s ==> f(k) == g(k) + h(k)
    ensures Sum(f, s) == Sum(g, s) + Sum(h, s)
    decreases |s|
  {
    if s != {} {
      StringsStrictTotal();
      SumAdds(f, g, h, s - {Least(StringBefore, s)});
    }
  }

  lemma {:induction false} SumScales(f: string -> int, a: int, g: string -> int, s: set<string>)
    requires forall k :: k in s ==> f(k) == a * g(k)
    ensures Sum(f, s) == a * Sum(g, s)
    decreases |s|
  {
    if s != {} {
      StringsStrictTotal();
      var k := Least(StringBefore, s);
      SumScales(f, a, g, s - {k});
      AddProducts(a, g(k), Sum(g, s - {k}));
    }
  }

  lemma AddProducts(a: int, b: int, c: int)
    ensures a * (b + c) == a * b + a * c
  {
  }

  lemma {:induction false} SumAtMost(f: string -> int, s: set<string>, high: int)
    requires forall k :: k in s ==> 0 <= f(k) <= high
    ensures 0 <= Sum(f, s) <= high * |s|
    decreases |s|
  {
    if s != {} {
      StringsStrictTotal();
      var k := Least(StringBefore, s);
      SumAtMost(f, s - {k}, high);
      OneMore(high, |s - {k}|);
    }
  }

  lemma OneMore(a: int, n: int)
    ensures a * (n + 1) == a + a * n
  {
  }

  function One(b: set<string>): string -> int { k => if k in b then 1 else 0 }

  lemma {:induction false} SumCounts(b: set<string>, s: set<string>)
    requires b <= s
    ensures Sum(One(b), s) == |b|
    decreases |s|
  {
    if s != {} {
      StringsStrictTotal();
      var k := Least(StringBefore, s);
      if k in b {
        SumSame(One(b), One(b - {k}), s - {k});
        SumCounts(b - {k}, s - {k});
      } else {
        SumCounts(b, s - {k});
      }
    }
  }

  // ----- products, one small fact at a time -----

  lemma Grows(c: int, a: int, b: int)
    requires c >= 0
    ensures a <= b ==> c * a <= c * b
  {
    if a <= b { Product(c, b - a); Distributes(c, b, a); }
  }

  lemma Product(a: int, b: int)
    requires a >= 0 && b >= 0
    ensures a * b >= 0
  {
  }

  lemma Distributes(a: int, b: int, c: int)
    ensures a * (b - c) == a * b - a * c
  {
  }

  lemma Quotient(n: int, d: int)
    requires d > 0 && n >= 0
    ensures n == d * (n / d) + n % d && n / d >= 0 && 0 <= n % d < d
  {
  }

  lemma FloorsGrow(pool: int, fa: int, ra: int, fb: int, rb: int)
    requires pool > 0 && 0 <= ra < pool && 0 <= rb < pool && pool * fb + rb <= pool * fa + ra
    ensures fb <= fa && (fa == fb ==> rb <= ra)
  {
    Grows(pool, fa + 1, fb);
    OneMore(pool, fa);
  }

  /** `pool * m` split into fewer than `pool` each takes at least `m` parts. */
  lemma Parts(pool: int, m: int, n: nat)
    requires pool > 0 && 0 <= pool * m <= (pool - 1) * n
    ensures 0 <= m <= n
  {
    Grows(pool, m, -1);
    Grows(pool, n + 1, m);
    OneMore(pool, n);
    OneMore(n, pool - 1);
    Commutes(pool, n);
    Commutes(pool - 1, n);
  }

  lemma Commutes(a: int, b: int)
    ensures a * b == b * a
  {
  }

  lemma Below(pool: int, r: int, w: int, f: int, rest: int)
    requires pool > 0 && w > 0 && 0 <= r < pool && r * w == pool * f + rest && 0 <= rest < pool
    ensures f <= w - 1 && (f == w - 1 <==> r * w >= pool * (w - 1))
  {
    Grows(w, r + 1, pool);
    OneMore(w, r);
    Commutes(w, r);
    Commutes(w, pool);
    Grows(pool, w, f);
    Grows(pool, f + 1, w - 1);
    OneMore(pool, f);
  }

  // ----- the plan -----

  function W(weights: map<string, nat>, k: string): nat { if k in weights then weights[k] else 0 }

  function Weights(weights: map<string, nat>): string -> int { k => W(weights, k) }

  /** Descending by a number, then by name. */
  predicate Ahead(f: string -> int, a: string, b: string) { f(a) > f(b) || (f(a) == f(b) && StringBefore(a, b)) }

  function Descending(f: string -> int): (string, string) -> bool { (a, b) => Ahead(f, a, b) }

  lemma DescendingTotal(f: string -> int)
    ensures StrictTotal(Descending(f))
  {
    StringsStrictTotal();
    forall a, b, c ensures Descending(f)(a, b) && Descending(f)(b, c) ==> Descending(f)(a, c) {}
  }

  function SortedBy(f: string -> int, s: set<string>): (r: seq<string>)
    ensures Falling(f, r) && (forall x :: x in s <==> x in r) && |r| == |s|
  {
    DescendingTotal(f);
    var r := Listing(Descending(f), s);
    assert forall i, j :: 0 <= i < j < |r| ==> Descending(f)(r[i], r[j]);
    r
  }

  predicate Falling(f: string -> int, r: seq<string>) { forall i, j :: 0 <= i < j < |r| ==> Ahead(f, r[i], r[j]) }

  /** The first ones of a falling list are ahead of all others, and there are as many of them as places. */
  lemma FirstOnes(f: string -> int, order: seq<string>, m: nat)
    requires Falling(f, order) && m <= |order|
    ensures |Elements(order[..m])| == m
    ensures forall a, b :: a in order[..m] && b in order && b !in order[..m] ==> Ahead(f, a, b)
  {
    StringsStrictTotal();
    DistinctCount(order[..m]);
    forall a, b | a in order[..m] && b in order && b !in order[..m] ensures Ahead(f, a, b) {
      var i :| 0 <= i < m && order[i] == a;
      var j :| 0 <= j < |order| && order[j] == b;
      assert forall x :: 0 <= x < m ==> order[..m][x] == order[x];
      assert j >= m;
    }
  }

  /** The keys kept: all of them, or the `total` heaviest. */
  function Kept(total: nat, weights: map<string, nat>): set<string> {
    if total < |weights.Keys| then Elements(SortedBy(Weights(weights), weights.Keys)[..total]) else weights.Keys
  }

  /** All keys stay when there is one for each; otherwise exactly `total` stay, and none of those left out is
      heavier. */
  lemma KeptHeaviest(total: nat, weights: map<string, nat>)
    ensures var kept := Kept(total, weights);
      && kept <= weights.Keys
      && |kept| == (if total < |weights.Keys| then total else |weights.Keys|)
      && forall k, j :: k in kept && j in weights && j !in kept ==> weights[k] >= weights[j]
  {
    if total < |weights.Keys| {
      var f := Weights(weights);
      FirstOnes(f, SortedBy(f, weights.Keys), total);
      forall k, j | k in Kept(total, weights) && j in weights && j !in Kept(total, weights)
          ensures weights[k] >= weights[j] {
        assert Ahead(f, k, j);
      }
    }
  }

  /** What is shared out: `remaining` after one for each key, over the whole weight of the keys. */
  datatype Plan = Plan(weights: map<string, nat>, keys: set<string>, pool: int, remaining: nat) {
    /** The whole part of a key's exact share, and its fraction as a numerator over the pool. */
    function Floor(k: string): int { if pool > 0 then remaining * W(weights, k) / pool else 0 }

    function Rest(k: string): int { if pool > 0 then remaining * W(weights, k) % pool else 0 }

    function Floors(): string -> int { k => Floor(k) }

    function Rests(): string -> int { k => Rest(k) }

    /** What the floors leave over. */
    function Left(): int { remaining - Sum(Floors(), keys) }

    /** Largest fraction first, then by name. */
    function Order(): seq<string> { SortedBy(Rests(), keys) }

    function Bumped(): set<string> { if 0 <= Left() <= |Order()| then Elements(Order()[..Left()]) else {} }

    function Quota(k: string): int { 1 + Floor(k) + One(Bumped())(k) }

    function Quotas(): string -> int { k => Quota(k) }

    ghost predicate Fair() { pool > 0 && pool == Sum(Weights(weights), keys) }
  }

  function PlanOf(total: nat, weights: map<string, nat>): Plan {
    KeptHeaviest(total, weights);
    var keys := Kept(total, weights);
    Plan(weights, keys, Sum(Weights(weights), keys), total - |keys|)
  }

  // ----- the extra ones -----

  lemma ShareSplits(p: Plan, k: string)
    requires p.pool > 0
    ensures p.remaining * W(p.weights, k) == p.pool * p.Floor(k) + p.Rest(k)
    ensures p.Floor(k) >= 0 && 0 <= p.Rest(k) < p.pool
  {
    Product(p.remaining, W(p.weights, k));
    Quotient(p.remaining * W(p.weights, k), p.pool);
  }

  function Scaled(p: Plan): string -> int { k => p.remaining * W(p.weights, k) }

  /** The fractions add up to exactly the number of extra ones, counted in the pool. */
  lemma FractionsAddUp(p: Plan)
    requires p.Fair()
    ensures Sum(p.Rests(), p.keys) == p.pool * p.Left()
  {
    SumScales(Scaled(p), p.remaining, Weights(p.weights), p.keys);
    forall k | k in p.keys ensures Scaled(p)(k) == WholePools(p)(k) + p.Rests()(k) { ShareSplits(p, k); }
    SumAdds(Scaled(p), WholePools(p), p.Rests(), p.keys);
    SumScales(WholePools(p), p.pool, p.Floors(), p.keys);
    Distributes(p.pool, p.remaining, Sum(p.Floors(), p.keys));
    Commutes(p.pool, p.remaining);
  }

  function WholePools(p: Plan): string -> int { k => p.pool * p.Floor(k) }

  /** Terms that are zero may be left out. */
  lemma {:induction false} SumOver(f: string -> int, s: set<string>, some: set<string>)
    requires some <= s && forall k :: k in s - some ==> f(k) == 0
    ensures Sum(f, s) == Sum(f, some)
    decreases |s|
  {
    if s - some == {} {
      assert s == some;
    } else {
      var k :| k in s - some;
      SumTakesOut(f, s, k);
      SumOver(f, s - {k}, some);
    }
  }

  function Positive(p: Plan): set<string> { set k | k in p.keys && p.Rest(k) > 0 }

  /** There are places for the extra ones, and keys with a fraction for all of them. */
  lemma EnoughFractions(p: Plan)
    requires p.Fair()
    ensures 0 <= p.Left() <= |Positive(p)| <= |p.keys|
  {
    FractionsAddUp(p);
    forall k | k in p.keys ensures 0 <= p.Rests()(k) <= p.pool - 1 { ShareSplits(p, k); }
    SumOver(p.Rests(), p.keys, Positive(p));
    SumAtMost(p.Rests(), Positive(p), p.pool - 1);
    Parts(p.pool, p.Left(), |Positive(p)|);
    Subset(Positive(p), p.keys);
  }

  lemma {:induction false} Subset(a: set<string>, b: set<string>)
    requires a <= b
    ensures |a| <= |b|
    decreases |a|
  {
    if a != {} {
      var x :| x in a;
      Subset(a - {x}, b - {x});
    }
  }

  /** Each extra one goes to a key with a fraction, and to none before one with a larger fraction. */
  lemma BumpedHaveFractions(p: Plan)
    requires p.Fair()
    ensures p.Bumped() <= p.keys && |p.Bumped()| == p.Left()
    ensures forall k :: k in p.Bumped() ==> p.Rest(k) > 0
    ensures forall a, b :: a in p.Bumped() && b in p.keys && b !in p.Bumped() ==> Ahead(p.Rests(), a, b)
  {
    EnoughFractions(p);
    FirstOnes(p.Rests(), p.Order(), p.Left());
    forall k | k in p.Bumped() ensures p.Rest(k) > 0 {
      ShareSplits(p, k);
      if p.Rest(k) == 0 { OthersFirst(p, k); }
    }
  }

  lemma OthersFirst(p: Plan, k: string)
    requires p.Fair() && k in p.Bumped() && p.Rest(k) == 0
    requires forall a, b :: a in p.Bumped() && b in p.keys && b !in p.Bumped() ==> Ahead(p.Rests(), a, b)
    ensures |Positive(p)| < |p.Bumped()|
  {
    forall x | x in Positive(p) ensures x in p.Bumped() - {k} {
      assert x !in p.Bumped() ==> Ahead(p.Rests(), k, x);
    }
    Subset(Positive(p), p.Bumped() - {k});
  }

  // ----- what the quotas are -----

  /** Together they are exactly the total. */
  lemma AllotsTotal(total: nat, weights: map<string, nat>)
    requires PlanOf(total, weights).pool > 0
    ensures var p := PlanOf(total, weights); Sum(p.Quotas(), p.keys) == total
  {
    var p := PlanOf(total, weights);
    BumpedHaveFractions(p);
    KeptHeaviest(total, weights);
    AddsUp(p);
  }

  lemma AddsUp(p: Plan)
    requires p.Bumped() <= p.keys
    ensures Sum(p.Quotas(), p.keys) == |p.keys| + Sum(p.Floors(), p.keys) + |p.Bumped()|
  {
    var more := Both(p.Floors(), One(p.Bumped()));
    SumAdds(more, p.Floors(), One(p.Bumped()), p.keys);
    SumAdds(p.Quotas(), One(p.keys), more, p.keys);
    SumCounts(p.keys, p.keys);
    SumCounts(p.Bumped(), p.keys);
  }

  function Both(f: string -> int, g: string -> int): string -> int { k => f(k) + g(k) }

  /** One, and the floor of the exact share, or its ceiling where the share is no whole number. */
  lemma FloorOrCeiling(p: Plan, k: string)
    requires p.Fair() && k in p.keys
    ensures var share, bumped := p.remaining * W(p.weights, k), k in p.Bumped();
      var floor := p.Quota(k) - 1 - if bumped then 1 else 0;
      p.pool * floor <= share < p.pool * (floor + 1) && (bumped ==> p.pool * floor < share)
  {
    var floor := p.Quota(k) - 1 - if k in p.Bumped() then 1 else 0;
    assert floor == p.Floor(k);
    BumpedPositive(p, k);
    ShareSplits(p, k);
    Between(p.pool, floor, p.Rest(k), p.remaining * W(p.weights, k));
  }

  lemma BumpedPositive(p: Plan, k: string)
    requires p.Fair()
    ensures k in p.Bumped() ==> p.Rest(k) > 0
  {
    BumpedHaveFractions(p);
  }

  lemma Between(pool: int, floor: int, rest: int, share: int)
    requires share == pool * floor + rest && 0 <= rest < pool
    ensures pool * floor <= share < pool * (floor + 1) && (rest > 0 ==> pool * floor < share)
  {
    OneMore(pool, floor);
  }

  /** A heavier key never gets less, and equal keys differ by at most one. */
  lemma HeavierNeverLess(p: Plan, a: string, b: string)
    requires p.Fair() && a in p.keys && b in p.keys && W(p.weights, a) >= W(p.weights, b)
    ensures W(p.weights, a) > W(p.weights, b) ==> p.Quota(a) >= p.Quota(b)
    ensures W(p.weights, a) == W(p.weights, b) ==> -1 <= p.Quota(a) - p.Quota(b) <= 1
  {
    Bumps(p, a, b);
    Shares(p, a, b);
    SameScale(p.remaining, W(p.weights, a), W(p.weights, b));
    Compares(p.Floor(a), p.Rest(a), a in p.Bumped(), p.Floor(b), p.Rest(b), b in p.Bumped());
  }

  /** With the larger floor, or one floor and the larger fraction. */
  lemma Compares(fa: int, ra: int, ba: bool, fb: int, rb: int, bb: bool)
    requires fb <= fa && (fa == fb ==> rb <= ra) && (bb && !ba ==> ra <= rb && rb > 0)
    ensures (fa == fb && ra == rb) || fa + (if ba then 1 else 0) >= fb + (if bb then 1 else 0)
  {
  }

  lemma Bumps(p: Plan, a: string, b: string)
    requires p.Fair() && a in p.keys && b in p.keys
    ensures b in p.Bumped() && a !in p.Bumped() ==> p.Rest(a) <= p.Rest(b) && p.Rest(b) > 0
  {
    BumpedHaveFractions(p);
    assert b in p.Bumped() && a !in p.Bumped() ==> Ahead(p.Rests(), b, a);
  }

  /** The shares compare as the weights, and so do their floors and fractions. */
  lemma Shares(p: Plan, a: string, b: string)
    requires p.pool > 0 && W(p.weights, a) >= W(p.weights, b)
    ensures p.Floor(b) <= p.Floor(a) && (p.Floor(a) == p.Floor(b) ==> p.Rest(b) <= p.Rest(a))
    ensures p.Floor(a) == p.Floor(b) && p.Rest(a) == p.Rest(b) ==>
        p.remaining * W(p.weights, a) == p.remaining * W(p.weights, b)
    ensures (W(p.weights, a) == W(p.weights, b) || p.remaining == 0) ==>
        p.Floor(a) == p.Floor(b) && p.Rest(a) == p.Rest(b)
    ensures p.remaining == 0 ==> p.Rest(a) == 0
  {
    ShareSplits(p, a);
    ShareSplits(p, b);
    Grows(p.remaining, W(p.weights, b), W(p.weights, a));
    FloorsGrow(p.pool, p.Floor(a), p.Rest(a), p.Floor(b), p.Rest(b));
    if p.remaining == 0 { Nothing(p, a); Nothing(p, b); }
  }

  lemma Nothing(p: Plan, k: string)
    requires p.pool > 0 && p.remaining == 0
    ensures p.Rest(k) == 0 && p.Floor(k) == 0
  {
    assert p.remaining * W(p.weights, k) == 0;
  }

  lemma SameScale(r: nat, a: nat, b: nat)
    ensures r * a == r * b && a > b ==> r == 0
  {
    Grows(r, b + 1, a);
    OneMore(r, b);
  }

  /** The keys whose fraction comes before this key's: larger, or equal and earlier by name. */
  function Earlier(p: Plan, k: string): set<string> { set j | j in p.keys && Ahead(p.Rests(), j, k) }

  /** An extra one goes to a key exactly when fewer keys come before it than ones are left over. */
  lemma BumpedIff(p: Plan, k: string)
    requires p.Fair() && k in p.keys
    ensures k in p.Bumped() <==> |Earlier(p, k)| < p.Left()
  {
    BumpedHaveFractions(p);
    StringsStrictTotal();
    if k in p.Bumped() {
      forall j | j in Earlier(p, k) ensures j in p.Bumped() - {k} {
        assert j !in p.Bumped() ==> Ahead(p.Rests(), k, j);
      }
      Subset(Earlier(p, k), p.Bumped() - {k});
    } else {
      Subset(p.Bumped(), Earlier(p, k));
    }
  }

  lemma OverdrawnPlan(p: Plan, k: string)
    requires p.Fair() && k in p.keys && p.remaining + |p.keys| <= p.pool && W(p.weights, k) > 0
    ensures p.Quota(k) <= W(p.weights, k) + 1
    ensures p.Quota(k) > W(p.weights, k) <==>
        k in p.Bumped() && p.remaining * W(p.weights, k) >= p.pool * (W(p.weights, k) - 1)
  {
    Subset({k}, p.keys);
    ShareSplits(p, k);
    Below(p.pool, p.remaining, W(p.weights, k), p.Floor(k), p.Rest(k));
  }

  /** A total that the populations can meet, none of them empty, makes a plan within the whole weight kept. */
  lemma PlanWithin(total: nat, weights: map<string, nat>)
    requires 0 < total <= Sum(Weights(weights), weights.Keys) && forall k :: k in weights ==> weights[k] > 0
    ensures var p := PlanOf(total, weights); p.Fair() && p.remaining + |p.keys| == total <= p.pool
  {
    var p := PlanOf(total, weights);
    KeptHeaviest(total, weights);
    assert forall k :: k in p.keys ==> One(p.keys)(k) <= Weights(weights)(k);
    SumLess(One(p.keys), Weights(weights), p.keys);
    SumCounts(p.keys, p.keys);
    assert total >= |weights.Keys| ==> p.keys == weights.Keys;
  }

  /** A key can get one more than its population, and does so exactly when fewer fractions come before its own than
      ones are left over, and its share of what remains reaches its population less one. */
  lemma OverdrawnIff(total: nat, weights: map<string, nat>, k: string)
    requires 0 < total <= Sum(Weights(weights), weights.Keys) && forall j :: j in weights ==> weights[j] > 0
    requires k in PlanOf(total, weights).keys
    ensures var p := PlanOf(total, weights);
      && k in weights && p.Quota(k) <= weights[k] + 1
      && (p.Quota(k) > weights[k] <==>
          |Earlier(p, k)| < p.Left() && p.remaining * weights[k] >= p.pool * (weights[k] - 1))
  {
    var p := PlanOf(total, weights);
    PlanWithin(total, weights);
    KeptHeaviest(total, weights);
    OverdrawnPlan(p, k);
    BumpedIff(p, k);
  }

  /** What the caller can draw from each population. */
  function Drawn(p: Plan): string -> int { k => if p.Quota(k) <= W(p.weights, k) then p.Quota(k) else W(p.weights, k) }

  lemma {:induction false} SumLess(f: string -> int, g: string -> int, s: set<string>)
    requires forall k :: k in s ==> f(k) <= g(k)
    ensures Sum(f, s) <= Sum(g, s)
    ensures Sum(f, s) == Sum(g, s) <==> forall k :: k in s ==> f(k) == g(k)
    decreases |s|
  {
    if s != {} {
      StringsStrictTotal();
      SumLess(f, g, s - {Least(StringBefore, s)});
    }
  }

  /** The draw reaches the total exactly when no key is overdrawn. */
  lemma DrawnIff(total: nat, weights: map<string, nat>)
    requires PlanOf(total, weights).pool > 0
    ensures var p := PlanOf(total, weights);
      Sum(Drawn(p), p.keys) <= total &&
          (Sum(Drawn(p), p.keys) == total <==> forall k :: k in p.keys ==> p.Quota(k) <= W(weights, k))
  {
    var p := PlanOf(total, weights);
    AllotsTotal(total, weights);
    assert forall k :: k in p.keys ==> Drawn(p)(k) <= p.Quotas()(k);
    SumLess(Drawn(p), p.Quotas(), p.keys);
    assert forall k :: Drawn(p)(k) == p.Quotas()(k) <==> p.Quota(k) <= W(p.weights, k);
  }

  lemma {:induction false} SumOfTwo(f: string -> int, a: string, b: string)
    requires a != b
    ensures Sum(f, {a, b}) == f(a) + f(b)
  {
    SumTakesOut(f, {a, b}, a);
    assert {a, b} - {a} == {b};
    SumTakesOut(f, {b}, b);
    assert {b} - {b} == {};
  }

  /** Four wanted out of a population of three and one of one: the smaller is asked for two, so only three are drawn. */
  lemma OverdrawExample()
    ensures var p := PlanOf(4, map["b" := 1, "z" := 3]);
        p.Quota("b") == 2 && p.Quota("z") == 2 && Sum(Drawn(p), p.keys) == 3
  {
    var p := Plan(map["b" := 1, "z" := 3], {"b", "z"}, 4, 2);
    ExamplePlan();
    ExampleQuotas(p);
    SumOfTwo(Drawn(p), "b", "z");
  }

  lemma ExamplePlan()
    ensures PlanOf(4, map["b" := 1, "z" := 3]) == Plan(map["b" := 1, "z" := 3], {"b", "z"}, 4, 2)
  {
    var weights: map<string, nat> := map["b" := 1, "z" := 3];
    assert weights.Keys == {"b", "z"};
    assert Kept(4, weights) == {"b", "z"};
    SumOfTwo(Weights(weights), "b", "z");
  }

  lemma ExampleQuotas(p: Plan)
    requires p == Plan(map["b" := 1, "z" := 3], {"b", "z"}, 4, 2)
    ensures p.Quota("b") == 2 && p.Quota("z") == 2
  {
    SumOfTwo(Weights(p.weights), "b", "z");
    SumOfTwo(p.Floors(), "b", "z");
    assert p.Floor("b") == 0 && p.Floor("z") == 1 && p.Rest("b") == 2 && p.Rest("z") == 2;
    assert p.Left() == 1;
    var order := p.Order();
    assert |order| == 2 && order[0] in p.keys;
    assert Codes("b")[0] == 98 && Codes("z")[0] == 122;
    assert Ahead(p.Rests(), "b", "z") && !Ahead(p.Rests(), "z", "b");
    assert order[1] in p.keys && Ahead(p.Rests(), order[0], order[1]);
    assert order[0] == "b";
    assert order[..1] == ["b"];
  }

  // ----- the loop -----

  /** The quotas of the keys kept; nothing when they weigh nothing. */
  method LargestRemainder(total: nat, weights: map<string, nat>) returns (quota: map<string, int>)
    ensures var p := PlanOf(total, weights);
      if p.pool == 0 then quota == map[] else quota.Keys == p.keys && forall k :: k in quota ==> quota[k] == p.Quota(k)
  {
    var p := PlanOf(total, weights);
    SumWeighs(p.weights, p.keys);
    if p.pool == 0 { return map[]; }
    quota := Share(p);
  }

  method Share(p: Plan) returns (quota: map<string, int>)
    requires p.Fair()
    ensures quota.Keys == p.keys && forall k :: k in quota ==> quota[k] == p.Quota(k)
  {
    EnoughFractions(p);
    var base := FloorsOf(p);
    var floors := AddExtra(p.Rests(), base, p.Order(), p.Left());
    QuotasAre(p, base, floors);
    quota := map k | k in floors :: 1 + floors[k];
  }

  lemma QuotasAre(p: Plan, base: map<string, int>, floors: map<string, int>)
    requires 0 <= p.Left() <= |p.Order()| && floors.Keys == base.Keys
    requires forall k :: k in base ==> base[k] == p.Floor(k)
    requires forall k :: k in base ==> floors[k] == base[k] + One(Elements(p.Order()[..p.Left()]))(k)
    ensures forall k :: k in floors ==> 1 + floors[k] == p.Quota(k)
  {
    forall k | k in floors ensures 1 + floors[k] == p.Quota(k) { QuotaIs(p, k, floors[k]); }
  }

  method FloorsOf(p: Plan) returns (floors: map<string, int>)
    ensures floors.Keys == p.keys && forall k :: k in floors ==> floors[k] == p.Floor(k)
  {
    floors := map k | k in p.keys :: p.Floor(k);
  }

  lemma QuotaIs(p: Plan, k: string, floor: int)
    requires 0 <= p.Left() <= |p.Order()| && floor == p.Floor(k) + One(Elements(p.Order()[..p.Left()]))(k)
    ensures 1 + floor == p.Quota(k)
  {
  }

  /** One more for each of the first keys of the order. */
  method AddExtra(f: string -> int, base: map<string, int>, order: seq<string>, left: nat)
      returns (floors: map<string, int>)
    requires left <= |order| && Falling(f, order) && forall k :: k in order <==> k in base
    ensures floors.Keys == base.Keys && forall k :: k in base ==> floors[k] == base[k] + One(Elements(order[..left]))(k)
  {
    floors := base;
    var i := 0;
    while i < left
      invariant 0 <= i <= left && floors.Keys == base.Keys
      invariant forall k :: k in base ==> floors[k] == base[k] + One(Elements(order[..i]))(k)
    {
      NextElement(f, order, i);
      floors := floors[order[i] := floors[order[i]] + 1];
      i := i + 1;
    }
  }

  lemma NextElement(f: string -> int, order: seq<string>, i: nat)
    requires Falling(f, order) && i < |order|
    ensures Elements(order[..i + 1]) == Elements(order[..i]) + {order[i]} && order[i] !in Elements(order[..i])
  {
    StringsStrictTotal();
  }

  lemma {:induction false} SumWeighs(weights: map<string, nat>, s: set<string>)
    ensures Sum(Weights(weights), s) >= 0
    decreases |s|
  {
    if s != {} {
      StringsStrictTotal();
      SumWeighs(weights, s - {Least(StringBefore, s)});
    }
  }
}
