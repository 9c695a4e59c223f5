/** What a bulk resolution publishes, yields and loses. */
module ResolvePlan {
  // Everything here is a function of the calls, the limits and which publications
  // fail; ResolveMany proves that the code does exactly this.

  import opened Prelude
  import opened Batching

  /** What a call's producer does when it has to run. */
  datatype Producer = Produces(count: nat, size: nat) | Suspends | Raises

  /** One call: its description size, whether a retained result already answers it, its producer. */
  datatype Call = Call(size: nat, reused: bool, producer: Producer)

  datatype Choice = Reused | Resolved | Suspended

  /** How a run ends: normally, by a producer's exception, or by a failing publication. */
  datatype Outcome = Done | ProducerRaised | PublishRaised

  function ItemOf(call: Call, ordinal: nat): Item
    requires call.producer.Produces?
  {
    Item(ordinal, call.producer.count + 1, call.producer.size)
  }

  function ChoiceOf(call: Call): Choice {
    if call.reused then Reused else if call.producer.Suspends? then Suspended else Resolved
  }

  predicate Raising(call: Call) { !call.reused && call.producer.Raises? }

  /** What one call completes. */
  function ItemAt(calls: seq<Call>, i: nat): seq<Item>
    requires i < |calls|
  {
    if !calls[i].reused && calls[i].producer.Produces? then [ItemOf(calls[i], i)] else []
  }

  /** The items calls `from` up to `to` complete when none raises, in call order. */
  function Items(calls: seq<Call>, from: nat, to: nat): seq<Item>
    requires from <= to <= |calls|
    decreases |calls| - from
  {
    if from == to then [] else ItemAt(calls, from) + Items(calls, from + 1, to)
  }

  lemma {:induction false} ItemsSplit(calls: seq<Call>, from: nat, mid: nat, to: nat)
    requires from <= mid <= to <= |calls|
    ensures Items(calls, from, to) == Items(calls, from, mid) + Items(calls, mid, to)
    decreases |calls| - from
  {
    if from < mid {
      ItemsSplit(calls, from + 1, mid, to);
      Associates(ItemAt(calls, from), Items(calls, from + 1, mid), Items(calls, mid, to));
    }
  }

  lemma {:induction false} ItemsWithin(calls: seq<Call>, from: nat, to: nat, item: Item)
    requires from <= to <= |calls| && item in Items(calls, from, to)
    ensures from <= item.id < to
    decreases |calls| - from
  {
    if item !in ItemAt(calls, from) { ItemsWithin(calls, from + 1, to, item); }
  }

  lemma {:induction false} ItemsHave(calls: seq<Call>, from: nat, to: nat, i: nat)
    requires from <= i < to <= |calls| && ItemAt(calls, i) != []
    ensures ItemOf(calls[i], i) in Items(calls, from, to)
    decreases |calls| - from
  {
    if from < i { ItemsHave(calls, from + 1, to, i); }
  }

  lemma {:induction false} ItemsCome(calls: seq<Call>, from: nat, to: nat, item: Item)
    requires from <= to <= |calls| && item in Items(calls, from, to)
    ensures from <= item.id < to && ItemAt(calls, item.id) == [item]
    decreases |calls| - from
  {
    if item !in ItemAt(calls, from) { ItemsCome(calls, from + 1, to, item); }
  }

  /** What is yielded for a call that does not raise: reused when a retained result answers it; otherwise suspended
      when its producer suspends, and resolved exactly when it completed an item to publish. */
  lemma ChoiceTells(calls: seq<Call>, i: nat)
    requires i < |calls| && !Raising(calls[i])
    ensures var c := ChoiceOf(calls[i]);
      && (c == Reused <==> calls[i].reused)
      && (c == Suspended <==> !calls[i].reused && calls[i].producer.Suspends?)
      && (c == Resolved <==> exists item :: item in Items(calls, 0, |calls|) && item.id == i)
  {
    if ItemAt(calls, i) != [] { ItemsHave(calls, 0, |calls|, i); }
    if item :| item in Items(calls, 0, |calls|) && item.id == i { ItemsCome(calls, 0, |calls|, item); }
  }

  /** The items of a run have increasing identities, so whatever is attempted is attempted once. */
  lemma {:induction false} ItemsIncrease(calls: seq<Call>, from: nat, to: nat, i: nat, j: nat)
    requires from <= to <= |calls| && i < j < |Items(calls, from, to)|
    ensures Items(calls, from, to)[i].id < Items(calls, from, to)[j].id
    decreases |calls| - from
  {
    var head, rest := ItemAt(calls, from), Items(calls, from + 1, to);
    if i < |head| {
      assert j >= |head| && rest[j - |head|] in rest;
      ItemsWithin(calls, from + 1, to, rest[j - |head|]);
    } else {
      ItemsIncrease(calls, from + 1, to, i - |head|, j - |head|);
    }
  }

  /** The first call whose producer has to run and raises; past the end if there is none. */
  function FirstRaise(calls: seq<Call>): (r: nat)
    ensures r <= |calls|
    ensures (forall i :: 0 <= i < r ==> !Raising(calls[i])) && (r < |calls| ==> Raising(calls[r]))
  {
    RaiseFrom(calls, 0)
  }

  function RaiseFrom(calls: seq<Call>, i: nat): (r: nat)
    requires i <= |calls|
    ensures i <= r <= |calls|
    ensures (forall j :: i <= j < r ==> !Raising(calls[j])) && (r < |calls| ==> Raising(calls[r]))
    decreases |calls| - i
  {
    if i == |calls| || Raising(calls[i]) then i else RaiseFrom(calls, i + 1)
  }

  /** Where the calls up to `end` stop: there, or at the first that raises. */
  function Until(calls: seq<Call>, end: nat): nat
    requires end <= |calls|
  {
    if FirstRaise(calls) < end then FirstRaise(calls) else end
  }

  // ----- groups -----

  /** Each call as a row of its group: one row, its description bytes. */
  function Rows(calls: seq<Call>): seq<Item> {
    seq(|calls|, i requires 0 <= i < |calls| => Item(i, 1, calls[i].size))
  }

  /** How many calls the first `g` groups hold. */
  function Covered(groups: seq<seq<Item>>, g: nat): nat
    requires g <= |groups|
  {
    if g == 0 then 0 else Covered(groups, g - 1) + |groups[g - 1]|
  }

  predicate Covers(calls: seq<Call>, groups: seq<seq<Item>>) {
    forall g :: 0 <= g <= |groups| ==> Covered(groups, g) <= Covered(groups, |groups|) <= |calls|
  }

  lemma {:induction false} CoveredGrows(groups: seq<seq<Item>>, g: nat, h: nat)
    requires g <= h <= |groups|
    ensures Covered(groups, g) <= Covered(groups, h)
    decreases h - g
  {
    if g < h { CoveredGrows(groups, g, h - 1); }
  }

  lemma {:induction false} CoveredFlattens(groups: seq<seq<Item>>, g: nat)
    requires g <= |groups|
    ensures Covered(groups, g) == |Flatten(groups[..g])|
    decreases g
  {
    if g > 0 {
      CoveredFlattens(groups, g - 1);
      assert groups[..g] == groups[..g - 1] + [groups[g - 1]];
      FlattenAppend(groups[..g - 1], groups[g - 1]);
    }
  }

  /** The groups' rows are a first part of the calls, and all of them when none is refused. */
  lemma GroupsCover(calls: seq<Call>, grouping: Limits)
    ensures var groups := GroupsOf(grouping, Rows(calls));
      && Covers(calls, groups)
      && ((forall i :: 0 <= i < |calls| ==> calls[i].size <= grouping.size) ==> Covered(groups, |groups|) == |calls|)
  {
    var groups := GroupsOf(grouping, Rows(calls));
    GroupsFlatten(calls, grouping);
    CoveredFlattens(groups, |groups|);
    assert groups[..|groups|] == groups;
    forall g | 0 <= g <= |groups| ensures Covered(groups, g) <= Covered(groups, |groups|) {
      CoveredGrows(groups, g, |groups|);
    }
  }

  lemma GroupsFlatten(calls: seq<Call>, grouping: Limits)
    ensures var flat := Flatten(GroupsOf(grouping, Rows(calls)));
      |flat| <= |calls| && ((forall i :: 0 <= i < |calls| ==> calls[i].size <= grouping.size) ==> |flat| == |calls|)
  {
    var k := FirstOver(Rows(calls), grouping.size);
    var all := Greedy(grouping, [], Rows(calls)[..k]);
    GreedySplits(grouping, [], Rows(calls)[..k]);
    assert [] + Rows(calls)[..k] == Rows(calls)[..k];
    if k < |calls| && all != [] {
      FlattenAppend(all[..|all| - 1], all[|all| - 1]);
      assert all[..|all| - 1] + [all[|all| - 1]] == all;
    }
  }

  function GroupsFor(calls: seq<Call>, grouping: Limits): (groups: seq<seq<Item>>)
    ensures Covers(calls, groups)
  {
    GroupsCover(calls, grouping);
    GroupsOf(grouping, Rows(calls))
  }

  /** Where the group that holds this call begins, looking from group `g` on. */
  function GroupStart(groups: seq<seq<Item>>, g: nat, ordinal: nat): (s: nat)
    requires g <= |groups|
    ensures Covered(groups, g) <= s && (Covered(groups, g) <= ordinal ==> s <= ordinal)
    decreases |groups| - g
  {
    if g == |groups| || ordinal < Covered(groups, g + 1) then Covered(groups, g) else GroupStart(groups, g + 1, ordinal)
  }

  // ----- publications -----

  /** A publication to come, the item whose size forces it now, if it is not its group's last, and where its group
      begins. */
  datatype Publication = Publication(batch: seq<Item>, forcedBy: seq<Item>, group: nat)

  function Batches(plan: seq<Publication>): seq<seq<Item>> { seq(|plan|, i requires 0 <= i < |plan| => plan[i].batch) }

  /** What comes at this place: the first item of the next batch, if there is one. */
  function NextItem(batches: seq<seq<Item>>, n: nat): seq<Item> {
    if n < |batches| && batches[n] != [] then [batches[n][0]] else []
  }

  /** One group's batches, each with what forces it. */
  function Marked(batches: seq<seq<Item>>, start: nat): seq<Publication> {
    seq(|batches|, i requires 0 <= i < |batches| => Publication(batches[i], NextItem(batches, i + 1), start))
  }

  /** The batches of one group: the greedy ones of what its calls complete before the first that raises. */
  function GroupBatches(limits: Limits, calls: seq<Call>, start: nat, end: nat): seq<seq<Item>>
    requires start <= end <= |calls| && start <= FirstRaise(calls)
  {
    Greedy(limits, [], Items(calls, start, Until(calls, end)))
  }

  /** The publications of group `g` and those after it; a group in which a producer raises is the last. */
  function Planned(limits: Limits, calls: seq<Call>, groups: seq<seq<Item>>, g: nat): (plan: seq<Publication>)
    requires Covers(calls, groups) && g <= |groups| && Covered(groups, g) <= FirstRaise(calls)
    ensures forall n :: 0 <= n < |plan| ==> plan[n].group <= |calls|
    decreases |groups| - g, 1
  {
    if g == |groups| then []
    else
      var start, end := Covered(groups, g), Covered(groups, g + 1);
      Marked(GroupBatches(limits, calls, start, end), start) + PlannedAfter(limits, calls, groups, g)
  }

  /** What is planned after group `g`. */
  function PlannedAfter(limits: Limits, calls: seq<Call>, groups: seq<seq<Item>>, g: nat): (plan: seq<Publication>)
    requires Covers(calls, groups) && g < |groups| && Covered(groups, g) <= FirstRaise(calls)
    ensures forall n :: 0 <= n < |plan| ==> plan[n].group <= |calls|
    decreases |groups| - g, 0
  {
    if FirstRaise(calls) < Covered(groups, g + 1) then [] else Planned(limits, calls, groups, g + 1)
  }

  /** All publications of a run in which none fails. */
  function PlanOf(limits: Limits, grouping: Limits, calls: seq<Call>): seq<Publication> {
    Planned(limits, calls, GroupsFor(calls, grouping), 0)
  }

  /** These are the first batches of the plan. */
  predicate OnPlan(plan: seq<Publication>, made: seq<seq<Item>>) { |made| <= |plan| && made == Batches(plan[..|made|]) }

  function Remaining(plan: seq<Publication>, n: nat): seq<Publication> { if n <= |plan| then plan[n..] else [] }

  /** What forces the last of the first `n` publications. */
  function Forced(plan: seq<Publication>, n: nat): seq<Item> { if 0 < n <= |plan| then plan[n - 1].forcedBy else [] }

  /** Where the group of the last of the first `n` publications begins. */
  function GroupOf(plan: seq<Publication>, n: nat): nat { if 0 < n <= |plan| then plan[n - 1].group else 0 }

  // ----- how a run ends -----

  /** How many of `count` publications succeed before the first that fails. */
  function Successes(publishes: nat -> bool, from: nat, count: nat): (n: nat)
    decreases count
    ensures n <= count && (forall i :: from <= i < from + n ==> publishes(i)) && (n < count ==> !publishes(from + n))
  {
    if count == 0 || !publishes(from) then 0 else 1 + Successes(publishes, from + 1, count - 1)
  }

  /** How many publications are made: up to the first that fails. */
  function Made(publishes: nat -> bool, plan: seq<Publication>): (n: nat)
    ensures n <= |plan|
  {
    var n := Successes(publishes, 0, |plan|);
    if n < |plan| then n + 1 else n
  }

  /** How many calls the groups hold: all, unless one is refused. */
  function Reached(grouping: Limits, calls: seq<Call>): (n: nat)
    ensures n <= |calls|
  {
    Covered(GroupsFor(calls, grouping), |GroupsFor(calls, grouping)|)
  }

  /** How a run ends: by the first publication that fails, by the first producer that raises, or through all its
      groups. */
  function Ending(limits: Limits, publishes: nat -> bool, grouping: Limits, calls: seq<Call>): Outcome {
    var plan := PlanOf(limits, grouping, calls);
    if Successes(publishes, 0, |plan|) < |plan| then PublishRaised
    else if FirstRaise(calls) < Reached(grouping, calls) then ProducerRaised
    else Done
  }

  /** What a run loses: the item that forced the first publication that fails. */
  function Lost(limits: Limits, publishes: nat -> bool, grouping: Limits, calls: seq<Call>): seq<Item> {
    var plan := PlanOf(limits, grouping, calls);
    var n := Successes(publishes, 0, |plan|);
    if n < |plan| then plan[n].forcedBy else []
  }

  /** How many choices are yielded: those of the groups before the one a fault ends. */
  function Yielded(limits: Limits, publishes: nat -> bool, grouping: Limits, calls: seq<Call>): (n: nat)
    ensures n <= |calls|
  {
    var plan := PlanOf(limits, grouping, calls);
    var n := Successes(publishes, 0, |plan|);
    if n < |plan| then plan[n].group
    else if FirstRaise(calls) < Reached(grouping, calls) then
        GroupStart(GroupsFor(calls, grouping), 0, FirstRaise(calls))
    else Reached(grouping, calls)
  }

  /** How many publications were made, and which succeeded, settles how the run ended. */
  lemma Settled(limits: Limits, publishes: nat -> bool, grouping: Limits, calls: seq<Call>, m: nat, outcome: Outcome,
      lost: seq<Item>,
                yielded: nat)
    requires var plan, groups := PlanOf(limits, grouping, calls), GroupsFor(calls, grouping);
      if outcome.PublishRaised? then
        && 0 < m <= |plan| && !publishes(m - 1) && (forall i :: 0 <= i < m - 1 ==> publishes(i))
        && lost == Forced(plan, m) && yielded == GroupOf(plan, m)
      else
        && m == |plan| && (forall i :: 0 <= i < m ==> publishes(i)) && lost == []
        && outcome == (if FirstRaise(calls) < Reached(grouping, calls) then ProducerRaised else Done)
        && yielded == if outcome.Done? then Reached(grouping, calls) else GroupStart(groups, 0, FirstRaise(calls))
    ensures outcome == Ending(limits, publishes, grouping, calls) && lost == Lost(limits, publishes, grouping, calls)
    ensures m == Made(publishes, PlanOf(limits, grouping, calls)) &&
        yielded == Yielded(limits, publishes, grouping, calls)
  {
    var plan := PlanOf(limits, grouping, calls);
    var n := Successes(publishes, 0, |plan|);
    assert n == if outcome.PublishRaised? then m - 1 else m;
  }

  /** One more group of the plan: what it made, what it leaves planned, and what it loses. */
  lemma PlanStep(plan: seq<Publication>, start: nat, n: nat, batches: seq<seq<Item>>, rest: seq<Publication>,
      before: seq<seq<Item>>,
                 made: seq<seq<Item>>)
    requires OnPlan(plan, before) && |before| == n && Remaining(plan, n) == Marked(batches, start) + rest
    requires n <= |made| && made <= before + batches
    ensures OnPlan(plan, made)
    ensures made == before + batches ==> Remaining(plan, |made|) == rest
    ensures |made| > n ==> Forced(plan, |made|) == NextItem(before + batches, |made|) && GroupOf(plan, |made|) == start
  {
    var m := |made|;
    assert |before| == n && |plan| == n + |batches| + |rest|;
    forall i | 0 <= i < m ensures made[i] == plan[i].batch {
      if i < n {
        assert before[i] == plan[..n][i].batch;
      } else {
        assert plan[n..][i - n] == Marked(batches, start)[i - n];
      }
    }
    if m > n { PlanAt(plan, start, n, batches, rest, before, m); }
    if made == before + batches {
      assert plan[m..] == plan[n..][m - n..];
    }
  }

  lemma PlanAt(plan: seq<Publication>, start: nat, n: nat, batches: seq<seq<Item>>, rest: seq<Publication>,
      before: seq<seq<Item>>, m: nat)
    requires n == |before| < m <= n + |batches| && n <= |plan| && plan[n..] == Marked(batches, start) + rest
    ensures m <= |plan| && plan[m - 1].forcedBy == NextItem(before + batches, m) && plan[m - 1].group == start
  {
    assert plan[n..][m - 1 - n] == Marked(batches, start)[m - 1 - n];
    assert m < n + |batches| ==> (before + batches)[m] == batches[m - n];
  }

  // ----- when an item is lost -----

  /** Two publications of one group. */
  predicate SameGroup(groups: seq<seq<Item>>, g: nat, a: Publication, b: Publication)
    requires g <= |groups|
  {
    a.batch != [] && b.batch != [] && GroupStart(groups, g, a.batch[0].id) == GroupStart(groups, g, b.batch[0].id)
  }

  lemma {:induction false} FlattenHas(batches: seq<seq<Item>>, n: nat, i: nat)
    requires n < |batches| && i < |batches[n]|
    ensures batches[n][i] in Flatten(batches)
    decreases n
  {
    if n > 0 { FlattenHas(batches[1..], n - 1, i); }
  }

  /** A publication of a group carries items of its calls, and is forced exactly when it is not the group's last. */
  lemma GroupPublication(limits: Limits, calls: seq<Call>, start: nat, end: nat, n: nat)
    requires start <= end <= |calls| && start <= FirstRaise(calls) && n < |GroupBatches(limits, calls, start, end)|
    ensures var p := Marked(GroupBatches(limits, calls, start, end), start)[n];
      && p.batch != [] && start <= p.batch[0].id < end
      && (p.forcedBy != [] <==> n + 1 < |GroupBatches(limits, calls, start, end)|)
  {
    var items, batches := Items(calls, start, Until(calls, end)), GroupBatches(limits, calls, start, end);
    GreedySplits(limits, [], items);
    assert [] + items == items;
    FlattenHas(batches, n, 0);
    ItemsWithin(calls, start, Until(calls, end), batches[n][0]);
  }

  /** The publications planned from group `g` on carry items of its calls or later ones. */
  lemma {:induction false} PlannedWithin(limits: Limits, calls: seq<Call>, groups: seq<seq<Item>>, g: nat, n: nat)
    requires Covers(calls, groups) && g <= |groups| && Covered(groups, g) <= FirstRaise(calls) &&
        n < |Planned(limits, calls, groups, g)|
    ensures var p := Planned(limits, calls, groups, g)[n]; p.batch != [] && Covered(groups, g) <= p.batch[0].id
    decreases |groups| - g
  {
    var count := |GroupBatches(limits, calls, Covered(groups, g), Covered(groups, g + 1))|;
    if n < count { GroupPublication(limits, calls, Covered(groups, g), Covered(groups, g + 1), n); }
    else { PlannedWithin(limits, calls, groups, g + 1, n - count); }
  }

  /** A publication is forced exactly when the next one is of the same group: it is neither its group's last flush
      nor the one after a producer's exception. */
  lemma {:induction false} ForcedIff(limits: Limits, calls: seq<Call>, groups: seq<seq<Item>>, g: nat, n: nat)
    requires Covers(calls, groups) && g <= |groups| && Covered(groups, g) <= FirstRaise(calls) &&
        n < |Planned(limits, calls, groups, g)|
    ensures var plan := Planned(limits, calls, groups, g);
      plan[n].forcedBy != [] <==> n + 1 < |plan| && SameGroup(groups, g, plan[n], plan[n + 1])
    decreases |groups| - g
  {
    var plan := Planned(limits, calls, groups, g);
    var start, end := Covered(groups, g), Covered(groups, g + 1);
    var count := |GroupBatches(limits, calls, start, end)|;
    if n < count {
      GroupPublication(limits, calls, start, end, n);
      if n + 1 < count {
        GroupPublication(limits, calls, start, end, n + 1);
      } else if n + 1 < |plan| {
        PlannedWithin(limits, calls, groups, g + 1, 0);
      }
    } else {
      ForcedIff(limits, calls, groups, g + 1, n - count);
      PlannedWithin(limits, calls, groups, g + 1, n - count);
      if n + 1 < |plan| { PlannedWithin(limits, calls, groups, g + 1, n + 1 - count); }
    }
  }

  /** An item is lost exactly when the first publication that fails has a next one in its group, which it was flushed to
      make room for; not when it is its group's last flush, or the one after a producer's exception. */
  lemma LostIff(limits: Limits, publishes: nat -> bool, grouping: Limits, calls: seq<Call>)
    ensures Lost(limits, publishes, grouping, calls) != [] <==>
      var plan := PlanOf(limits, grouping, calls);
      var n := Successes(publishes, 0, |plan|);
      n + 1 < |plan| && SameGroup(GroupsFor(calls, grouping), 0, plan[n], plan[n + 1])
  {
    var plan := PlanOf(limits, grouping, calls);
    var n := Successes(publishes, 0, |plan|);
    if n < |plan| { ForcedIff(limits, calls, GroupsFor(calls, grouping), 0, n); }
  }

  /** What one publication and one group may hold. */
  const LIMITS := Limits(1024, 8 * 1024 * 1024 - 2 * 64 * 1024)
  const GROUPING := Limits(128, 8 * 1024 * 1024)

  const BIG := Call(10, false, Produces(1000, 10))

  /** Two producers of 1001 records each, in one group; the first publication, which the second item forces, fails: the
      second item has completed, and is never attempted. */
  lemma LostExample()
    ensures Lost(LIMITS, n => false, GROUPING, [BIG, BIG]) == [ItemOf(BIG, 1)]
    ensures Ending(LIMITS, n => false, GROUPING, [BIG, BIG]) == PublishRaised
  {
    OneGroup([BIG, BIG]);
    ExamplePlan([BIG, BIG]);
    var plan := PlanOf(LIMITS, GROUPING, [BIG, BIG]);
    assert Successes(n => false, 0, |plan|) == 0;
  }

  lemma ExamplePlan(calls: seq<Call>)
    requires calls == [BIG, BIG] && GroupsFor(calls, GROUPING) == [Rows(calls)]
    ensures var plan := PlanOf(LIMITS, GROUPING, calls);
        |plan| == 2 && plan[0] == Publication([ItemOf(BIG, 0)], [ItemOf(BIG, 1)], 0)
  {
    var groups, a, b := [Rows(calls)], ItemOf(BIG, 0), ItemOf(BIG, 1);
    ExampleItems(calls);
    TwoBatches(a, b);
    assert Covered(groups, 0) == 0 && Covered(groups, 1) == 2 && FirstRaise(calls) == 2 && Until(calls, 2) == 2;
    assert GroupBatches(LIMITS, calls, 0, 2) == [[a], [b]];
    assert PlannedAfter(LIMITS, calls, groups, 0) == [];
    assert PlanOf(LIMITS, GROUPING, calls) == Marked([[a], [b]], 0) + [];
  }

  lemma {:induction false} ExampleItems(calls: seq<Call>)
    requires calls == [BIG, BIG]
    ensures Items(calls, 0, 2) == [ItemOf(BIG, 0), ItemOf(BIG, 1)]
  {
    assert Items(calls, 1, 2) == ItemAt(calls, 1) + Items(calls, 2, 2);
    assert ItemAt(calls, 0) == [ItemOf(BIG, 0)] && ItemAt(calls, 1) == [ItemOf(BIG, 1)];
  }

  lemma TwoBatches(a: Item, b: Item)
    requires a.count == b.count == 1001 && a.size == b.size == 10
    ensures Greedy(LIMITS, [], [a, b]) == [[a], [b]]
  {
    TwoItems(LIMITS, a, b);
  }

  lemma {:induction false} TwoItems(limits: Limits, a: Item, b: Item)
    ensures Greedy(limits, [], [a, b]) ==
      if a.count + b.count <= limits.count && a.size + b.size <= limits.size then [[a, b]] else [[a], [b]]
  {
    TotalsAppend([a], [b]);
    assert [a][..0] == [] && [b][..0] == [];
    assert [a] + [b] == [a, b] && [a, b][1..] == [b] && [b][1..] == [] && [] + [a] == [a];
    assert Greedy(limits, [a, b], []) == [[a, b]] && Greedy(limits, [b], []) == [[b]];
    assert Greedy(limits, [], [a, b]) == Greedy(limits, [a], [b]);
  }

  lemma OneGroup(calls: seq<Call>)
    requires calls == [BIG, BIG]
    ensures GroupsFor(calls, GROUPING) == [Rows(calls)]
  {
    var a, b := Item(0, 1, 10), Item(1, 1, 10);
    assert Rows(calls) == [a, b] && [a, b][..2] == [a, b];
    assert FirstOver([a, b], GROUPING.size) == 2;
    TwoItems(GROUPING, a, b);
  }

  // ----- what the plan carries -----

  lemma FlattenMarked(limits: Limits, items: seq<Item>, start: nat, rest: seq<Publication>)
    ensures Flatten(Batches(Marked(Greedy(limits, [], items), start) + rest)) == items + Flatten(Batches(rest))
  {
    var batches := Greedy(limits, [], items);
    GreedySplits(limits, [], items);
    assert [] + items == items && Batches(Marked(batches, start) + rest) == batches + Batches(rest);
    FlattenConcat(batches, Batches(rest));
  }

  /** The plan carries exactly what the calls complete before the first producer that raises, in order. */
  lemma {:induction false} PlanHolds(limits: Limits, calls: seq<Call>, groups: seq<seq<Item>>, g: nat)
    requires Covers(calls, groups) && g <= |groups| && Covered(groups, g) <= FirstRaise(calls)
    ensures Flatten(Batches(Planned(limits, calls, groups, g)))
         == Items(calls, Covered(groups, g), Until(calls, Covered(groups, |groups|)))
    decreases |groups| - g
  {
    var all := Until(calls, Covered(groups, |groups|));
    if g == |groups| {
      assert Batches([]) == [];
    } else {
      var start, end := Covered(groups, g), Covered(groups, g + 1);
      var rest := PlannedAfter(limits, calls, groups, g);
      FlattenMarked(limits, Items(calls, start, Until(calls, end)), start, rest);
      if FirstRaise(calls) < end {
        assert Batches(rest) == [];
      } else {
        PlanHolds(limits, calls, groups, g + 1);
        ItemsSplit(calls, start, end, all);
      }
    }
  }

  /** Without a fault the run ends normally, loses nothing, publishes the whole plan and yields every choice. */
  lemma FaultFree(limits: Limits, publishes: nat -> bool, grouping: Limits, calls: seq<Call>)
    requires forall n: nat :: publishes(n)
    requires forall i :: 0 <= i < |calls| ==> !Raising(calls[i]) && calls[i].size <= grouping.size
    ensures var plan := PlanOf(limits, grouping, calls);
      && Ending(limits, publishes, grouping, calls) == Done && Lost(limits, publishes, grouping, calls) == []
      && Yielded(limits, publishes, grouping, calls) == |calls|
      && Made(publishes, plan) == |plan| && Flatten(Batches(plan)) == Items(calls, 0, |calls|)
  {
    var plan := PlanOf(limits, grouping, calls);
    GroupsCover(calls, grouping);
    AllSucceed(publishes, |plan|);
    PlanHolds(limits, calls, GroupsFor(calls, grouping), 0);
    assert FirstRaise(calls) == |calls|;
  }

  lemma AllSucceed(publishes: nat -> bool, count: nat)
    requires forall n: nat :: publishes(n)
    ensures Successes(publishes, 0, count) == count
  {
  }
}
