/** The size of the row groups of an export: a binary search over a predicate that is not monotone. */
module GroupRows {
  import opened Prelude

  function Sum(w: seq<nat>): nat { if w == [] then 0 else w[0] + Sum(w[1..]) }

  /** Where group `g` of a size starts and ends, in key order. */
  function Start(n: nat, size: nat, g: nat): (s: nat)
    ensures s <= n
  {
    if g * size <= n then g * size else n
  }

  function GroupBytes(widths: seq<nat>, size: nat, g: nat): nat {
    var low, high := Start(|widths|, size, g), Start(|widths|, size, g + 1);
    if low <= high then Sum(widths[low..high]) else 0
  }

  function Groups(n: nat, size: nat): nat
    requires size > 0
  {
    (n + size - 1) / size
  }

  function LargestUpTo(widths: seq<nat>, size: nat, count: nat): nat {
    if count == 0 then 0
    else
      var before, last := LargestUpTo(widths, size, count - 1), GroupBytes(widths, size, count - 1);
      if last > before then last else before
  }

  /** The bytes of the largest group a size would write; zero without rows. */
  function Largest(widths: seq<nat>, size: nat): nat
    requires size > 0
  {
    LargestUpTo(widths, size, Groups(|widths|, size))
  }

  /** Every group fits the target. */
  ghost predicate Fits(widths: seq<nat>, size: nat, target: nat)
    requires size > 0
  {
    forall g :: 0 <= g < Groups(|widths|, size) ==> GroupBytes(widths, size, g) <= target
  }

  lemma {:induction false} UpToFits(widths: seq<nat>, size: nat, count: nat, target: nat)
    ensures LargestUpTo(widths, size, count) <= target <==>
        forall g :: 0 <= g < count ==> GroupBytes(widths, size, g) <= target
  {
    if count > 0 {
      UpToFits(widths, size, count - 1, target);
      assert count - 1 >= 0;
    }
  }

  lemma LargestFits(widths: seq<nat>, size: nat, target: nat)
    requires size > 0
    ensures Largest(widths, size) <= target <==> Fits(widths, size, target)
  {
    UpToFits(widths, size, Groups(|widths|, size), target);
  }

  /** A row is in the group of its place divided by the size, and every row is in a group. */
  lemma RowGroup(widths: seq<nat>, size: nat, i: nat)
    requires size > 0 && i < |widths|
    ensures var g := i / size;
      g < Groups(|widths|, size) && Start(|widths|, size, g) <= i < Start(|widths|, size, g + 1)
  {
    var g, n := i / size, |widths|;
    assert i == g * size + i % size;
    assert (g + 1) * size == g * size + size;
    Divides(i, n + size - 1, size);
  }

  lemma Divides(i: nat, m: nat, size: nat)
    requires size > 0 && i + size <= m
    ensures i / size < m / size
  {
    var q, r := i / size, m / size;
    assert i == q * size + i % size && m == r * size + m % size;
    Scales(r, q, size);
  }

  lemma Scales(x: nat, y: nat, d: nat)
    ensures x <= y ==> x * d <= y * d
  {
    if x <= y {
      assert (y - x) * d >= 0;
      assert (y - x) * d == y * d - x * d;
    }
  }

  /** A size of so many vectors writes only groups within the target. */
  ghost predicate FitsVectors(widths: seq<nat>, vector: nat, k: nat, target: nat)
    requires vector > 0
  {
    k * vector > 0 && Fits(widths, k * vector, target)
  }

  method IsWithin(widths: seq<nat>, vector: nat, k: nat, target: nat) returns (within: bool)
    requires vector > 0 && k > 0
    ensures within <==> FitsVectors(widths, vector, k, target)
  {
    var size := k * vector;
    assert size > 0 by { Scales(1, k, vector); }
    LargestFits(widths, size, target);
    within := Largest(widths, size) <= target;
  }

  /** Where the search ends, from a range of sizes. */
  ghost function Search(widths: seq<nat>, vector: nat, target: nat, low: nat, high: nat): nat
    requires vector > 0
    decreases high - low
  {
    if low >= high then low
    else
      var middle := (low + high + 1) / 2;
      if FitsVectors(widths, vector, middle, target) then Search(widths, vector, target, middle, high)
      else Search(widths, vector, target, low, middle - 1)
  }

  /** A number `k` of whole vectors at which every group fits, and which is the cap or next to one at which some group
      does not fit.  Refused exactly when one vector does not fit. */
  method RowsPerGroup(widths: seq<nat>, vector: nat, target: nat) returns (r: Option<nat>, ghost k: nat)
    requires vector > 0
    ensures r.None? <==> !FitsVectors(widths, vector, 1, target)
    ensures r.Some? ==> k == Search(widths, vector, target, 1, Cap(|widths|, vector))
    ensures r.Some? ==> r.value == k * vector && FitsVectors(widths, vector, k, target)
    ensures r.Some? ==>
        0 < k <= Cap(|widths|, vector) && (k == Cap(|widths|, vector) || !FitsVectors(widths, vector, k + 1, target))
  {
    var low, high := 1, Cap(|widths|, vector);
    k := 1;
    var within := IsWithin(widths, vector, 1, target);
    if !within { return None, 1; }
    while low < high
      invariant 0 < low <= high <= Cap(|widths|, vector)
      invariant FitsVectors(widths, vector, low, target)
      invariant Search(widths, vector, target, 1, Cap(|widths|, vector)) == Search(widths, vector, target, low, high)
      invariant high < Cap(|widths|, vector) ==> !FitsVectors(widths, vector, high + 1, target)
    {
      var middle := (low + high + 1) / 2;
      within := IsWithin(widths, vector, middle, target);
      low, high := if within then middle else low, if within then high else middle - 1;
    }
    k := low;
    r := Some(low * vector);
  }

  /** Enough whole vectors for all rows, and at least one. */
  function Cap(rows: nat, vector: nat): (c: nat)
    requires vector > 0
    ensures c > 0
  {
    if rows == 0 then 1 else (rows + vector - 1) / vector
  }

  /** At the cap there is one group, so nothing larger could differ. */
  lemma CapHoldsAll(rows: nat, vector: nat)
    requires vector > 0
    ensures Cap(rows, vector) * vector >= rows
  {
    if rows > 0 {
      var m := rows + vector - 1;
      assert m == m / vector * vector + m % vector;
    }
  }

  // ----- when the search finds the largest size that fits -----

  /** Of the sizes a bisection towards `m` would try, those up to `m`. */
  function Probes(low: nat, high: nat, m: nat): seq<nat>
    decreases high - low
  {
    if low >= high then []
    else
      var middle := (low + high + 1) / 2;
      if middle <= m then [middle] + Probes(middle, high, m) else Probes(low, middle - 1, m)
  }

  lemma {:induction false} SearchWithin(widths: seq<nat>, vector: nat, target: nat, low: nat, high: nat)
    requires vector > 0 && low <= high
    ensures low <= Search(widths, vector, target, low, high) <= high
    decreases high - low
  {
    if low < high {
      var middle := (low + high + 1) / 2;
      if FitsVectors(widths, vector, middle, target) {
        SearchWithin(widths, vector, target, middle, high);
      } else {
        SearchWithin(widths, vector, target, low, middle - 1);
      }
    }
  }

  lemma {:induction false} SearchFinds(widths: seq<nat>, vector: nat, target: nat, low: nat, high: nat, m: nat)
    requires vector > 0 && low <= m <= high && FitsVectors(widths, vector, m, target)
    requires forall k :: m < k <= high ==> !FitsVectors(widths, vector, k, target)
    ensures Search(widths, vector, target, low, high) == m <==>
      forall k :: k in Probes(low, high, m) ==> FitsVectors(widths, vector, k, target)
    decreases high - low
  {
    if low < high {
      var middle := (low + high + 1) / 2;
      if middle > m {
        SearchFinds(widths, vector, target, low, middle - 1, m);
      } else if FitsVectors(widths, vector, middle, target) {
        SearchFinds(widths, vector, target, middle, high, m);
      } else {
        SearchWithin(widths, vector, target, low, middle - 1);
        assert middle in Probes(low, high, m);
      }
    }
  }

  /** The largest size that fits, of all up to the cap. */
  ghost predicate Best(widths: seq<nat>, vector: nat, target: nat, m: nat)
    requires vector > 0
  {
    && 1 <= m <= Cap(|widths|, vector) && FitsVectors(widths, vector, m, target)
    && forall k :: m < k <= Cap(|widths|, vector) ==> !FitsVectors(widths, vector, k, target)
  }

  /** The search ends at the largest size that fits exactly when every smaller size that a bisection towards it tries
      fits. */
  lemma FindsBestIff(widths: seq<nat>, vector: nat, target: nat, m: nat)
    requires vector > 0 && Best(widths, vector, target, m)
    ensures Search(widths, vector, target, 1, Cap(|widths|, vector)) == m <==>
      forall k :: k in Probes(1, Cap(|widths|, vector), m) ==> FitsVectors(widths, vector, k, target)
  {
    SearchFinds(widths, vector, target, 1, Cap(|widths|, vector), m);
  }

  lemma {:induction false} ProbesWithin(low: nat, high: nat, m: nat, k: nat)
    requires k in Probes(low, high, m)
    ensures low < k <= m
    decreases high - low
  {
    var middle := (low + high + 1) / 2;
    if middle > m {
      ProbesWithin(low, middle - 1, m, k);
    } else if k != middle {
      ProbesWithin(middle, high, m, k);
    }
  }

  /** So it does where every size below one that fits fits as well. */
  lemma FindsBestWhenMonotone(widths: seq<nat>, vector: nat, target: nat, m: nat)
    requires vector > 0 && Best(widths, vector, target, m)
    requires forall k :: 1 <= k < m ==> FitsVectors(widths, vector, k, target)
    ensures Search(widths, vector, target, 1, Cap(|widths|, vector)) == m
  {
    forall k | k in Probes(1, Cap(|widths|, vector), m) ensures FitsVectors(widths, vector, k, target) {
      ProbesWithin(1, Cap(|widths|, vector), m, k);
    }
    FindsBestIff(widths, vector, target, m);
  }

  // ----- and when it does not -----

  const VECTOR_ROWS := 2048
  const TARGET := 48 * 1024 * 1024

  /** Four vectors of rows of 2000 bytes, then two of rows of 12500. */
  function Uneven(): seq<nat> { seq(6 * VECTOR_ROWS, i => if i < 4 * VECTOR_ROWS then 2000 else 12500) }

  lemma {:induction false} SumAtMost(w: seq<nat>, c: nat)
    requires forall i :: 0 <= i < |w| ==> w[i] <= c
    ensures Sum(w) <= c * |w|
    ensures (forall i :: 0 <= i < |w| ==> w[i] == c) ==> Sum(w) == c * |w|
  {
    if w != [] { SumAtMost(w[1..], c); }
  }

  lemma {:induction false} SumAppends(a: seq<nat>, b: seq<nat>)
    ensures Sum(a + b) == Sum(a) + Sum(b)
  {
    if a == [] {
      assert a + b == b;
    } else {
      assert (a + b)[1..] == a[1..] + b;
      SumAppends(a[1..], b);
    }
  }

  /** The search does not find the largest size that fits: of six vectors of the exporter's own length and target, five
      fit, two and four do not, and it ends at one. */
  lemma LargerCanFit()
    ensures var w := Uneven();
      && Cap(|w|, VECTOR_ROWS) == 6 && Best(w, VECTOR_ROWS, TARGET, 5)
      && !FitsVectors(w, VECTOR_ROWS, 2, TARGET) && !FitsVectors(w, VECTOR_ROWS, 4, TARGET)
      && Search(w, VECTOR_ROWS, TARGET, 1, 6) == 1
  {
    var w := Uneven();
    OneFits(w);
    FiveFit(w);
    TailTooLarge(w);
    assert Groups(12288, 12288) == 1 && GroupBytes(w, 12288, 0) == Sum(w[0..12288]);
    assert Groups(12288, 4096) == 3 && Groups(12288, 8192) == 2;
    assert GroupBytes(w, 4096, 2) > TARGET && GroupBytes(w, 8192, 1) > TARGET;
    assert Search(w, VECTOR_ROWS, TARGET, 1, 6) == Search(w, VECTOR_ROWS, TARGET, 1, 3)
        == Search(w, VECTOR_ROWS, TARGET, 1, 1);
  }

  lemma TailTooLarge(w: seq<nat>)
    requires w == Uneven()
    ensures Sum(w[8192..12288]) > TARGET && Sum(w[0..12288]) > TARGET
  {
    SumAtMost(w[8192..12288], 12500);
    assert w[0..12288] == w[0..8192] + w[8192..12288];
    SumAppends(w[0..8192], w[8192..12288]);
  }

  lemma OneFits(w: seq<nat>)
    requires w == Uneven()
    ensures FitsVectors(w, VECTOR_ROWS, 1, TARGET)
  {
    forall g | 0 <= g < Groups(|w|, 2048) ensures GroupBytes(w, 2048, g) <= TARGET {
      var low, high := Start(|w|, 2048, g), Start(|w|, 2048, g + 1);
      if low <= high {
        assert high - low <= 2048;
        SumAtMost(w[low..high], 12500);
        assert 12500 * (high - low) <= 12500 * 2048;
      }
    }
  }

  lemma FiveFit(w: seq<nat>)
    requires w == Uneven()
    ensures FitsVectors(w, VECTOR_ROWS, 5, TARGET)
  {
    assert Groups(12288, 10240) == 2;
    assert w[0..10240] == w[0..8192] + w[8192..10240];
    SumAppends(w[0..8192], w[8192..10240]);
    SumAtMost(w[0..8192], 2000);
    SumAtMost(w[8192..10240], 12500);
    SumAtMost(w[10240..12288], 12500);
    assert GroupBytes(w, 10240, 0) == Sum(w[0..10240]) && GroupBytes(w, 10240, 1) == Sum(w[10240..12288]);
  }
}
