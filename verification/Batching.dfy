/** Bounded batches: items go out in order, split only where a count or byte limit forces it. */
module Batching {
  import opened Prelude

  /** One unit of work with its record count and encoded size. */
  datatype Item = Item(id: nat, count: nat, size: nat)

  datatype Limits = Limits(count: nat, size: nat)

  function Count(batch: seq<Item>): nat {
    if batch == [] then 0 else Count(batch[..|batch| - 1]) + batch[|batch| - 1].count
  }

  function Size(batch: seq<Item>): nat {
    if batch == [] then 0 else Size(batch[..|batch| - 1]) + batch[|batch| - 1].size
  }

  /** A single item always goes out; more than one only within both limits. */
  predicate Fits(limits: Limits, batch: seq<Item>) {
    |batch| <= 1 || (Count(batch) <= limits.count && Size(batch) <= limits.size)
  }

  /** The batches a loop makes that holds `pending` and flushes before an item that would not fit. */
  function Greedy(limits: Limits, pending: seq<Item>, rest: seq<Item>): seq<seq<Item>>
    decreases |rest|
  {
    if rest == [] then (if pending == [] then [] else [pending])
    else if pending != [] && !Fits(limits, pending + [rest[0]]) then [pending] + Greedy(limits, [rest[0]], rest[1..])
    else Greedy(limits, pending + [rest[0]], rest[1..])
  }

  function Flatten(batches: seq<seq<Item>>): seq<Item> {
    if batches == [] then [] else batches[0] + Flatten(batches[1..])
  }

  /** A split of the items into consecutive nonempty batches, each within the limits. */
  predicate Splits(limits: Limits, batches: seq<seq<Item>>, items: seq<Item>) {
    Flatten(batches) == items && forall i :: 0 <= i < |batches| ==> batches[i] != [] && Fits(limits, batches[i])
  }

  lemma {:induction false} GreedySplits(limits: Limits, pending: seq<Item>, rest: seq<Item>)
    requires Fits(limits, pending)
    ensures Splits(limits, Greedy(limits, pending, rest), pending + rest)
    decreases |rest|
  {
    if rest == [] {
      if pending != [] { assert [pending][1..] == []; }
    } else if pending != [] && !Fits(limits, pending + [rest[0]]) {
      GreedySplits(limits, [rest[0]], rest[1..]);
      var tail := Greedy(limits, [rest[0]], rest[1..]);
      assert ([pending] + tail)[1..] == tail;
      assert [rest[0]] + rest[1..] == rest;
    } else {
      GreedySplits(limits, pending + [rest[0]], rest[1..]);
      assert pending + [rest[0]] + rest[1..] == pending + rest;
    }
  }

  /** Every split is forced: a batch could not have taken the first item of the next one. */
  lemma {:induction false} GreedyIsForced(limits: Limits, pending: seq<Item>, rest: seq<Item>, i: nat)
    requires Fits(limits, pending) && i + 1 < |Greedy(limits, pending, rest)|
    ensures var bs := Greedy(limits, pending, rest); bs[i + 1] != [] && !Fits(limits, bs[i] + [bs[i + 1][0]])
    decreases |rest|
  {
    GreedySplits(limits, pending, rest);
    if pending != [] && !Fits(limits, pending + [rest[0]]) {
      var tail := Greedy(limits, [rest[0]], rest[1..]);
      if i == 0 {
        GreedyStarts(limits, [rest[0]], rest[1..]);
      } else {
        GreedyIsForced(limits, [rest[0]], rest[1..], i - 1);
      }
    } else {
      GreedyIsForced(limits, pending + [rest[0]], rest[1..], i);
    }
  }

  lemma GreedyTakes(limits: Limits, pending: seq<Item>, item: Item, rest: seq<Item>)
    ensures Greedy(limits, pending, [item] + rest) ==
      if pending != [] && !Fits(limits, pending + [item]) then [pending] + Greedy(limits, [item], rest)
          else Greedy(limits, pending + [item], rest)
  {
    assert ([item] + rest)[1..] == rest;
  }

  lemma {:induction false} GreedyStarts(limits: Limits, pending: seq<Item>, rest: seq<Item>)
    requires pending != []
    ensures var bs := Greedy(limits, pending, rest); bs != [] && pending <= bs[0]
    decreases |rest|
  {
    if rest != [] && Fits(limits, pending + [rest[0]]) {
      GreedyStarts(limits, pending + [rest[0]], rest[1..]);
    }
  }

  // ----- the loop makes as few batches as any split -----

  lemma {:induction false} TotalsAppend(xs: seq<Item>, ys: seq<Item>)
    ensures Count(xs + ys) == Count(xs) + Count(ys) && Size(xs + ys) == Size(xs) + Size(ys)
    decreases |ys|
  {
    if ys == [] {
      assert xs + ys == xs;
    } else {
      var n := |ys| - 1;
      assert (xs + ys)[..|xs + ys| - 1] == xs + ys[..n];
      TotalsAppend(xs, ys[..n]);
    }
  }

  /** Any part of a batch within the limits is within them. */
  lemma FitsPart(limits: Limits, before: seq<Item>, part: seq<Item>, after: seq<Item>)
    requires Fits(limits, before + part + after)
    ensures Fits(limits, part)
  {
    TotalsAppend(before + part, after);
    TotalsAppend(before, part);
  }

  /** Items that fit with what is pending are only added. */
  lemma {:induction false} GreedyFills(limits: Limits, pending: seq<Item>, block: seq<Item>, rest: seq<Item>)
    requires Fits(limits, pending + block)
    ensures Greedy(limits, pending, block + rest) == Greedy(limits, pending + block, rest)
    decreases |block|
  {
    if block == [] {
      assert pending + block == pending && block + rest == rest;
    } else {
      var x := block[0];
      assert pending + block == [] + (pending + [x]) + block[1..] && pending + [x] + block[1..] == pending + block;
      FitsPart(limits, [], pending + [x], block[1..]);
      assert (block + rest)[0] == x && (block + rest)[1..] == block[1..] + rest;
      GreedyFills(limits, pending + [x], block[1..], rest);
    }
  }

  /** A longer pending batch costs at most one batch more, and never fewer. */
  lemma {:induction false} PendingCosts(limits: Limits, lead: seq<Item>, pending: seq<Item>, rest: seq<Item>)
    requires Fits(limits, lead + pending)
    ensures |Greedy(limits, pending, rest)| <= |Greedy(limits, lead + pending, rest)| <= |Greedy(limits, pending, rest)|
        + 1
    decreases |rest|
  {
    if rest != [] {
      var x, tail := rest[0], rest[1..];
      assert lead + pending + [x] == lead + (pending + [x]);
      if lead + pending == [] {
        assert lead + pending == pending;
      } else if Fits(limits, lead + pending + [x]) {
        assert lead + (pending + [x]) + [] == lead + pending + [x];
        FitsPart(limits, lead, pending + [x], []);
        PendingCosts(limits, lead, pending + [x], tail);
      } else if pending == [] || Fits(limits, pending + [x]) {
        PendingCosts(limits, pending, [x], tail);
      }
    }
  }

  /** No split into consecutive batches within the limits has fewer batches than the loop makes. */
  lemma {:induction false} GreedyIsFewest(limits: Limits, items: seq<Item>, other: seq<seq<Item>>)
    requires Splits(limits, other, items)
    ensures |Greedy(limits, [], items)| <= |other|
    decreases |other|
  {
    if other != [] {
      var rest := Flatten(other[1..]);
      forall i | 0 <= i < |other[1..]| ensures other[1..][i] != [] && Fits(limits, other[1..][i]) {
        assert other[1..][i] == other[i + 1];
      }
      GreedyIsFewest(limits, rest, other[1..]);
      assert [] + other[0] == other[0] && other[0] + [] == other[0];
      GreedyFills(limits, [], other[0], rest);
      PendingCosts(limits, other[0], [], rest);
    }
  }

  /** The first item over the byte limit by itself; past the end if there is none. */
  function FirstOver(items: seq<Item>, limit: nat): (k: nat)
    ensures k <= |items| && (k < |items| ==> items[k].size > limit) && forall i :: 0 <= i < k ==> items[i].size <= limit
  {
    if items == [] || items[0].size > limit then 0 else 1 + FirstOver(items[1..], limit)
  }

  /** The groups given out: all of them, or those before the one that an oversized item would have joined or
      followed. */
  function GroupsOf(limits: Limits, items: seq<Item>): seq<seq<Item>> {
    var k := FirstOver(items, limits.size);
    var groups := Greedy(limits, [], items[..k]);
    if k < |items| && groups != [] then groups[..|groups| - 1] else groups
  }

  lemma TakesNext(items: seq<Item>, k: nat, to: nat)
    requires k < to <= |items|
    ensures items[k..to] == [items[k]] + items[k + 1..to] && items[..k + 1] == items[..k] + [items[k]]
  {
  }

  /** `bounded_rows`: groups of items, refusing one that is over the byte limit by itself. */
  method BoundedRows(items: seq<Item>, limits: Limits) returns (groups: seq<seq<Item>>, ok: bool)
    ensures ok <==> forall x :: x in items ==> x.size <= limits.size
    ensures groups == GroupsOf(limits, items)
    ensures ok ==> groups == Greedy(limits, [], items)
    ensures !ok ==> exists k :: 0 <= k < |items| && items[k].size > limits.size && Flatten(groups) <= items[..k]
  {
    ghost var over := FirstOver(items, limits.size);
    groups := [];
    var pending := [];
    for k := 0 to |items|
      invariant k <= over
      invariant groups + Greedy(limits, pending, items[k..over]) == Greedy(limits, [], items[..over])
      invariant Flatten(groups) + pending == items[..k] && (pending == [] ==> groups == [])
    {
      var x := items[k];
      if x.size > limits.size {
        assert items[k] in items && items[k..over] == [];
        ok := false;
        return;
      }
      TakesNext(items, k, over);
      GreedyTakes(limits, pending, x, items[k + 1..over]);
      if pending != [] && !Fits(limits, pending + [x]) {
        FlattenAppend(groups, pending);
        Associates(groups, [pending], Greedy(limits, [x], items[k + 1..over]));
        groups, pending := groups + [pending], [x];
      } else {
        Associates(Flatten(groups), pending, [x]);
        pending := pending + [x];
      }
    }
    assert items[..|items|] == items;
    if pending != [] { groups := groups + [pending]; }
    ok := true;
  }

  lemma {:induction false} FlattenAppend(batches: seq<seq<Item>>, last: seq<Item>)
    ensures Flatten(batches + [last]) == Flatten(batches) + last
    decreases |batches|
  {
    if batches == [] {
      assert batches + [last] == [last] && [last][1..] == [];
    } else {
      assert (batches + [last])[1..] == batches[1..] + [last];
      FlattenAppend(batches[1..], last);
    }
  }

  lemma {:induction false} FlattenConcat(xs: seq<seq<Item>>, ys: seq<seq<Item>>)
    ensures Flatten(xs + ys) == Flatten(xs) + Flatten(ys)
    decreases |xs|
  {
    if xs == [] {
      assert xs + ys == ys;
    } else {
      assert (xs + ys)[1..] == xs[1..] + ys;
      FlattenConcat(xs[1..], ys);
    }
  }
}
