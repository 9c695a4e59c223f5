/** Resolving many requests: batch the completed producers, publish, then yield in order. */
module ResolveMany {
  // Every completed producer, every publication attempt and every yielded choice
  // is an event, so the order of effects is part of what is proved.

  import opened Prelude
  import opened Batching
  import opened ResolvePlan

  datatype Event =
    | Completed(item: Item)                         // a producer finished; its output is in memory
    | Attempt(batch: seq<Item>, published: bool)    // one publication of a batch
    | Yield(ordinal: nat, choice: Choice)

  function CompletedIn(log: seq<Event>): seq<Item> {
    if log == [] then []
    else CompletedIn(log[..|log| - 1]) + (if log[|log| - 1].Completed? then [log[|log| - 1].item] else [])
  }

  function AttemptedIn(log: seq<Event>): seq<Item> {
    if log == [] then []
    else AttemptedIn(log[..|log| - 1]) + (if log[|log| - 1].Attempt? then log[|log| - 1].batch else [])
  }

  function YieldedIn(log: seq<Event>): seq<(nat, Choice)> {
    if log == [] then []
    else
      YieldedIn(log[..|log| - 1])
      + (if log[|log| - 1].Yield? then [(log[|log| - 1].ordinal, log[|log| - 1].choice)] else [])
  }

  function BatchesIn(log: seq<Event>): seq<seq<Item>> {
    if log == [] then []
    else BatchesIn(log[..|log| - 1]) + (if log[|log| - 1].Attempt? then [log[|log| - 1].batch] else [])
  }

  function FlagsIn(log: seq<Event>): seq<bool> {
    if log == [] then []
    else FlagsIn(log[..|log| - 1]) + (if log[|log| - 1].Attempt? then [log[|log| - 1].published] else [])
  }

  lemma LogStep(log: seq<Event>, event: Event)
    ensures CompletedIn(log + [event]) == CompletedIn(log) + if event.Completed? then [event.item] else []
    ensures AttemptedIn(log + [event]) == AttemptedIn(log) + if event.Attempt? then event.batch else []
    ensures YieldedIn(log + [event]) == YieldedIn(log) + if event.Yield? then [(event.ordinal, event.choice)] else []
    ensures BatchesIn(log + [event]) == BatchesIn(log) + if event.Attempt? then [event.batch] else []
    ensures FlagsIn(log + [event]) == FlagsIn(log) + if event.Attempt? then [event.published] else []
  {
    assert (log + [event])[..|log|] == log;
  }

  /** An item some successful publication before this point carried. */
  predicate PublishedBefore(log: seq<Event>, id: nat) {
    exists j :: 0 <= j < |log| && log[j].Attempt? && log[j].published && HasId(log[j].batch, id)
  }

  predicate HasId(batch: seq<Item>, id: nat) { exists k :: 0 <= k < |batch| && batch[k].id == id }

  lemma PublishedStays(log: seq<Event>, more: seq<Event>, id: nat)
    requires PublishedBefore(log, id)
    ensures PublishedBefore(log + more, id)
  {
    var j :| 0 <= j < |log| && log[j].Attempt? && log[j].published && HasId(log[j].batch, id);
    assert (log + more)[j] == log[j];
  }

  predicate MayYield(log: seq<Event>, event: Event) {
    event.Yield? && event.choice.Resolved? ==> PublishedBefore(log, event.ordinal)
  }

  /** A freshly resolved choice is yielded only after its publication. */
  predicate YieldsAfterPublish(log: seq<Event>) {
    forall i :: 0 <= i < |log| && log[i].Yield? && log[i].choice.Resolved? ==> PublishedBefore(log[..i], log[i].ordinal)
  }

  /** Every batch within the limits unless it is a single item. */
  predicate BatchesFit(limits: Limits, log: seq<Event>) {
    forall i :: 0 <= i < |log| && log[i].Attempt? ==> log[i].batch != [] && Fits(limits, log[i].batch)
  }

  /** The last event is a publication that failed. */
  predicate EndsInFailure(log: seq<Event>) { log != [] && log[|log| - 1].Attempt? && !log[|log| - 1].published }

  /** Whether each of the first `n` publications succeeds. */
  function Flags(publishes: nat -> bool, n: nat): seq<bool> {
    if n == 0 then [] else Flags(publishes, n - 1) + [publishes(n - 1)]
  }

  class Resolver {
    const limits: Limits                  // of one publication
    const publishes: nat -> bool          // whether the n-th publication succeeds
    var attempts: nat
    var log: seq<Event>
    var pending: seq<Item>

    constructor (limits: Limits, publishes: nat -> bool)
      ensures log == [] && pending == [] && this.limits == limits && this.publishes == publishes
    {
      this.limits, this.publishes := limits, publishes;
      attempts, log, pending := 0, [], [];
    }

    /** Nothing completed is forgotten: it was attempted, it is pending, or it is the one in hand; order kept,
        nothing twice. */
    ghost predicate Accounted(hand: seq<Item>) reads this {
      && CompletedIn(log) == AttemptedIn(log) + pending + hand
      && Fits(limits, pending) && BatchesFit(limits, log) && YieldsAfterPublish(log)
      && attempts == |BatchesIn(log)| && FlagsIn(log) == Flags(publishes, attempts)
    }

    /** Every publication so far succeeded. */
    ghost predicate Unbroken() reads this { forall i :: 0 <= i < attempts ==> publishes(i) }

    /** The last publication failed, the first to do so, and ended the run. */
    ghost predicate Broken() reads this {
      && attempts > 0 && !publishes(attempts - 1) && (forall i :: 0 <= i < attempts - 1 ==> publishes(i))
      && EndsInFailure(log)
    }

    /** The batches made so far, then those the loop still makes of what is pending and to come. */
    ghost function Plan(rest: seq<Item>): seq<seq<Item>> reads this { BatchesIn(log) + Greedy(limits, pending, rest) }

    /** Published already, or going out with the next batch. */
    ghost predicate Safe(id: nat) reads this { PublishedBefore(log, id) || HasId(pending, id) }

    method Note(event: Event)
      modifies this`log
      ensures log == old(log) + [event]
      ensures CompletedIn(log) == CompletedIn(old(log)) + if event.Completed? then [event.item] else []
      ensures AttemptedIn(log) == AttemptedIn(old(log)) + if event.Attempt? then event.batch else []
      ensures YieldedIn(log) == YieldedIn(old(log)) + if event.Yield? then [(event.ordinal, event.choice)] else []
      ensures BatchesIn(log) == BatchesIn(old(log)) + if event.Attempt? then [event.batch] else []
      ensures FlagsIn(log) == FlagsIn(old(log)) + if event.Attempt? then [event.published] else []
      ensures YieldsAfterPublish(old(log)) && MayYield(old(log), event) ==> YieldsAfterPublish(log)
      ensures BatchesFit(limits, old(log)) && (event.Attempt? ==> event.batch != [] && Fits(limits, event.batch)) ==>
          BatchesFit(limits, log)
    {
      LogStep(log, event);
      ghost var before := log;
      log := log + [event];
      assert forall i :: 0 <= i <= |before| ==> log[..i] == before[..i];
    }

    /** `flush`: what is pending is cleared before it is published, so it is attempted once. */
    method Flush(ghost hand: seq<Item>) returns (ok: bool)
      requires Accounted(hand) && Unbroken()
      modifies this
      ensures Accounted(hand) && pending == [] && if ok then Unbroken() else Broken()
      ensures CompletedIn(log) == CompletedIn(old(log)) && YieldedIn(log) == YieldedIn(old(log))
      ensures log == old(log) + if old(pending) == [] then [] else [Attempt(old(pending), ok)]
      ensures BatchesIn(log) == BatchesIn(old(log)) + if old(pending) == [] then [] else [old(pending)]
      ensures old(pending) == [] ==> ok
      ensures ok ==> forall id :: old(Safe(id)) ==> Safe(id)
    {
      if pending == [] { return true; }
      var ready := pending;
      pending := [];
      ok := publishes(attempts);
      attempts := attempts + 1;
      Note(Attempt(ready, ok));
      forall id | old(Safe(id)) && ok ensures Safe(id) {
        if PublishedBefore(old(log), id) { PublishedStays(old(log), [Attempt(ready, ok)], id); }
        else { assert log[|old(log)|] == Attempt(ready, true); }
      }
    }

    /** One completed item: flush first when it would not fit; if that publication fails the item is lost. */
    method Hold(item: Item, ghost rest: seq<Item>) returns (ok: bool)
      requires Accounted([]) && Unbroken()
      modifies this
      ensures if ok then Unbroken() else Broken()
      ensures old(log) <= log && YieldedIn(log) == YieldedIn(old(log))
      ensures CompletedIn(log) == CompletedIn(old(log)) + [item]
      ensures ok ==> Accounted([]) && Plan(rest) == old(Plan([item] + rest)) && Safe(item.id)
      ensures ok ==> forall id :: old(Safe(id)) ==> Safe(id)
      ensures !ok ==> Accounted([item]) && pending == [] && LostLast(limits, log, item)
      ensures !ok ==> BatchesIn(log) + Greedy(limits, [item], rest) == old(Plan([item] + rest))
    {
      Complete(item);
      ok := MakeRoom(item, rest);
      if ok { Append(item); }
    }

    /** Flushes what is pending when the item in hand would not fit beside it. */
    method MakeRoom(item: Item, ghost rest: seq<Item>) returns (ok: bool)
      requires Accounted([item]) && Unbroken()
      modifies this
      ensures if ok then Unbroken() else Broken()
      ensures Accounted([item]) && old(log) <= log
      ensures CompletedIn(log) == CompletedIn(old(log)) && YieldedIn(log) == YieldedIn(old(log))
      ensures ok ==> Fits(limits, pending + [item])
      ensures ok ==> BatchesIn(log) + Greedy(limits, pending + [item], rest) == old(Plan([item] + rest))
      ensures ok ==> forall id :: old(Safe(id)) ==> Safe(id)
      ensures !ok ==>
          pending == [] && log == old(log) + [Attempt(old(pending), false)] && !Fits(limits, old(pending) + [item])
      ensures !ok ==> BatchesIn(log) + Greedy(limits, [item], rest) == old(Plan([item] + rest))
    {
      GreedyTakes(limits, pending, item, rest);
      ok := true;
      if pending != [] && !Fits(limits, pending + [item]) {
        ghost var kept, made := pending, BatchesIn(log);
        Associates(made, [kept], Greedy(limits, [item], rest));
        ok := Flush([item]);
        assert [] + [item] == [item];
      }
    }

    /** The producer returned: its output is in hand. */
    method Complete(item: Item)
      requires Accounted([])
      modifies this`log
      ensures Accounted([item]) && attempts == old(attempts) && log == old(log) + [Completed(item)]
      ensures CompletedIn(log) == CompletedIn(old(log)) + [item] && YieldedIn(log) == YieldedIn(old(log)) &&
          BatchesIn(log) == BatchesIn(old(log))
      ensures forall id :: old(Safe(id)) ==> Safe(id)
    {
      ghost var before := log;
      Note(Completed(item));
      forall id | PublishedBefore(before, id) ensures PublishedBefore(log, id) {
        PublishedStays(before, [Completed(item)], id);
      }
    }

    method Append(item: Item)
      requires Accounted([item]) && Fits(limits, pending + [item])
      modifies this`pending
      ensures Accounted([]) && log == old(log) && pending == old(pending) + [item] && Safe(item.id)
      ensures forall id :: old(Safe(id)) ==> Safe(id)
    {
      ghost var kept := pending;
      pending := pending + [item];
      assert pending[|kept|] == item;
      forall id | HasId(kept, id) ensures HasId(pending, id) {
        var k :| 0 <= k < |kept| && kept[k].id == id;
        assert pending[k] == kept[k];
      }
    }

    /** The run ended with these batches of a plan made, and lost what was in hand. */
    ghost predicate Ended(plan: seq<seq<Item>>, lost: seq<Item>) reads this {
      BatchesIn(log) <= plan && lost == NextItem(plan, |BatchesIn(log)|)
    }

    /** One call of a group; `rest` is what the calls after it complete, `all` what is still to come before it.  The
        outcome is Done unless the group ends here. */
    method RunProducer(calls: seq<Call>, i: nat, ghost rest: seq<Item>, ghost all: seq<Item>)
      returns (outcome: Outcome, ghost lost: seq<Item>)
      requires i < |calls| && Accounted([]) && Unbroken() && (Raising(calls[i]) ==> rest == []) &&
          all == ItemAt(calls, i) + rest
      modifies this
      ensures old(log) <= log && YieldedIn(log) == YieldedIn(old(log)) && Accounted(lost)
      ensures if outcome.PublishRaised? then Broken() else Unbroken()
      ensures !outcome.PublishRaised? ==> (outcome.ProducerRaised? <==> Raising(calls[i]))
      ensures outcome.Done? ==> lost == [] && Plan(rest) == old(Plan(all))
      ensures outcome.Done? ==> (ChoiceOf(calls[i]).Resolved? ==> Safe(i)) && forall id :: old(Safe(id)) ==> Safe(id)
      ensures !outcome.Done? ==> pending == [] && Ended(old(Plan(all)), lost)
      ensures outcome.ProducerRaised? ==> BatchesIn(log) == old(Plan(all))
      ensures lost != [] ==> outcome.PublishRaised? && |lost| == 1 && LostLast(limits, log, lost[0])
    {
      lost, outcome := [], Done;
      if calls[i].reused || calls[i].producer.Suspends? {
        assert all == rest;
        return;
      }
      if calls[i].producer.Raises? {
        var ok := Flush([]);
        outcome := if ok then ProducerRaised else PublishRaised;
        return;
      }
      var item := ItemOf(calls[i], i);
      var ok := Hold(item, rest);
      if !ok {
        outcome, lost := PublishRaised, [item];
        EndsBefore(limits, BatchesIn(log), item, rest);
      }
    }

    /** Before call `i` of a group that began at `start` with this log and still planned these batches. */
    ghost predicate Underway(first: seq<Event>, plan: seq<seq<Item>>, calls: seq<Call>, start: nat, i: nat,
        rest: seq<Item>)
      requires i <= |calls|
      reads this
    {
      && i <= FirstRaise(calls) && Accounted([]) && Unbroken() && first <= log && YieldedIn(log) == YieldedIn(first)
      && Plan(rest) == plan && (forall k :: start <= k < i && ChoiceOf(calls[k]).Resolved? ==> Safe(k))
    }

    method RunNext(ghost first: seq<Event>, ghost plan: seq<seq<Item>>, calls: seq<Call>, ghost start: nat, i: nat,
                   ghost all: seq<Item>, ghost rest: seq<Item>)
      returns (outcome: Outcome, ghost lost: seq<Item>)
      requires i < |calls| && Underway(first, plan, calls, start, i, all)
      requires all == ItemAt(calls, i) + rest && (Raising(calls[i]) ==> rest == [])
      modifies this
      ensures outcome.Done? ==> lost == [] && Underway(first, plan, calls, start, i + 1, rest)
      ensures Accounted(lost) && first <= log && YieldedIn(log) == YieldedIn(first)
      ensures if outcome.PublishRaised? then Broken() else Unbroken()
      ensures outcome.ProducerRaised? ==> i == FirstRaise(calls) && BatchesIn(log) == plan
      ensures !outcome.Done? ==> pending == [] && Ended(plan, lost)
      ensures lost != [] ==> outcome.PublishRaised? && |lost| == 1 && LostLast(limits, log, lost[0])
    {
      outcome, lost := RunProducer(calls, i, rest, all);
    }

    /** The producers of calls `start` up to `end` in order; what is left pending fits one more batch. */
    method RunAll(calls: seq<Call>, start: nat, end: nat, ghost all: seq<Item>)
        returns (outcome: Outcome, ghost lost: seq<Item>)
      requires start <= end <= |calls| && start <= FirstRaise(calls) && Accounted([]) && Unbroken()
      requires all == ToCome(calls, start, end)
      modifies this
      ensures Accounted(lost) && old(log) <= log && YieldedIn(log) == YieldedIn(old(log))
      ensures lost != [] ==> outcome.PublishRaised? && |lost| == 1 && LostLast(limits, log, lost[0])
      ensures if outcome.PublishRaised? then Broken() else Unbroken()
      ensures !outcome.Done? ==> pending == [] && Ended(old(Plan(all)), lost)
      ensures outcome.ProducerRaised? ==> FirstRaise(calls) < end && BatchesIn(log) == old(Plan(all))
      ensures outcome.Done? ==> lost == [] && end <= FirstRaise(calls)
      ensures outcome.Done? ==> Underway(old(log), old(Plan(all)), calls, start, end, [])
    {
      lost, outcome := [], Done;
      ghost var first, plan, left := log, Plan(all), all;
      for i := start to end
        invariant lost == [] && outcome.Done? && left == ToCome(calls, i, end) &&
            Underway(first, plan, calls, start, i, left)
      {
        ghost var rest := ComesNext(calls, i, end);
        outcome, lost := RunNext(first, plan, calls, start, i, left, rest);
        if !outcome.Done? { return; }
        left := rest;
      }
    }

    /** One group: run its producers, then flush what is left. Its batches are the greedy ones of what completes
        before the first producer that raises; all of them are made unless a publication fails, and then what comes
        next is lost. */
    method RunProducers(calls: seq<Call>, start: nat, end: nat) returns (outcome: Outcome, ghost lost: seq<Item>)
      requires start <= end <= |calls| && start <= FirstRaise(calls) && Accounted([]) && Unbroken() && pending == []
      modifies this
      ensures pending == [] && Accounted(lost) && old(log) <= log && YieldedIn(log) == YieldedIn(old(log))
      ensures lost != [] ==> outcome.PublishRaised? && |lost| == 1 && LostLast(limits, log, lost[0])
      ensures if outcome.PublishRaised? then Broken() else Unbroken()
      ensures !outcome.PublishRaised? ==> outcome == if FirstRaise(calls) < end then ProducerRaised else Done
      ensures var plan := BatchesIn(old(log)) + GroupBatches(limits, calls, start, end);
        Ended(plan, lost) && (!outcome.PublishRaised? ==> BatchesIn(log) == plan)
      ensures outcome.Done? ==> forall i :: start <= i < end && ChoiceOf(calls[i]).Resolved? ==> PublishedBefore(log, i)
    {
      outcome, lost := RunAll(calls, start, end, Items(calls, start, Until(calls, end)));
      if outcome.Done? {
        var ok := Flush([]);
        outcome := if ok then Done else PublishRaised;
      }
    }

    /** `yield from choices`: the group's choices, once its publications are done. */
    method YieldChoices(calls: seq<Call>, from: nat, to: nat)
      requires from <= to <= |calls| && Accounted([]) && pending == []
      requires YieldedIn(log) == Choices(calls)[..from]
      requires forall i :: from <= i < to && ChoiceOf(calls[i]).Resolved? ==> PublishedBefore(log, i)
      modifies this
      ensures Accounted([]) && pending == [] && attempts == old(attempts) && old(log) <= log &&
          YieldedIn(log) == Choices(calls)[..to]
      ensures BatchesIn(log) == BatchesIn(old(log)) && CompletedIn(log) == CompletedIn(old(log))
    {
      for i := from to to
        invariant Accounted([]) && pending == [] && attempts == old(attempts) && old(log) <= log
        invariant YieldedIn(log) == Choices(calls)[..i]
        invariant BatchesIn(log) == BatchesIn(old(log)) && CompletedIn(log) == CompletedIn(old(log))
        invariant forall k :: i <= k < to && ChoiceOf(calls[k]).Resolved? ==> PublishedBefore(log, k)
      {
        ghost var before := log;
        Note(Yield(i, ChoiceOf(calls[i])));
        assert Choices(calls)[..i + 1] == Choices(calls)[..i] + [(i, ChoiceOf(calls[i]))];
        forall k | i < k < to && ChoiceOf(calls[k]).Resolved? ensures PublishedBefore(log, k) {
          PublishedStays(before, [Yield(i, ChoiceOf(calls[i]))], k);
        }
      }
    }

    /** One group, calls `start` up to `end`: publish everything it completes, then yield its choices. */
    method ResolveGroup(calls: seq<Call>, start: nat, end: nat) returns (outcome: Outcome, ghost lost: seq<Item>)
      requires start <= end <= |calls| && start <= FirstRaise(calls) && Accounted([]) && Unbroken() && pending == []
      requires YieldedIn(log) == Choices(calls)[..start] && CompletedIn(log) == Items(calls, 0, start)
      modifies this
      ensures pending == [] && Accounted(lost)
      ensures if outcome.PublishRaised? then Broken() else Unbroken() && !EndsInFailure(log)
      ensures lost != [] ==> outcome.PublishRaised? && |lost| == 1 && LostLast(limits, log, lost[0])
      ensures CompletedIn(log) <= Items(calls, 0, Until(calls, end))
      ensures YieldedIn(log) == Choices(calls)[..if outcome.Done? then end else start]
      ensures !outcome.PublishRaised? ==> outcome == if FirstRaise(calls) < end then ProducerRaised else Done
      ensures var plan := BatchesIn(old(log)) + GroupBatches(limits, calls, start, end);
        Ended(plan, lost) && (!outcome.PublishRaised? ==> BatchesIn(log) == plan)
      ensures !outcome.PublishRaised? ==> CompletedIn(log) == Items(calls, 0, Until(calls, end))
    {
      ghost var first, items := log, Items(calls, start, Until(calls, end));
      ItemsSplit(calls, 0, start, Until(calls, end));
      outcome, lost := RunProducers(calls, start, end);
      EndedCompletes(limits, first, log, items, lost);
      if outcome.ProducerRaised? { LastPublished(log, publishes, attempts); }
      if !outcome.Done? { return; }
      YieldChoices(calls, start, end);
      LastPublished(log, publishes, attempts);
    }

    /** Before the group that begins at call `start`, with this much of the plan left. */
    ghost predicate Between(plan: seq<Publication>, left: seq<Publication>, calls: seq<Call>, start: nat) reads this {
      && start <= |calls| && start <= FirstRaise(calls)
      && Accounted([]) && Unbroken() && pending == [] && !EndsInFailure(log)
      && OnPlan(plan, BatchesIn(log)) && Remaining(plan, attempts) == left
      && YieldedIn(log) == Choices(calls)[..start] && CompletedIn(log) == Items(calls, 0, start)
    }

    /** One group of the plan, and how the run stands after it. */
    method ResolveNext(ghost plan: seq<Publication>, ghost left: seq<Publication>, ghost rest: seq<Publication>,
        calls: seq<Call>,
                       start: nat, end: nat)
      returns (outcome: Outcome, ghost lost: seq<Item>)
      requires start <= end <= |calls| && start <= FirstRaise(calls) && Between(plan, left, calls, start)
      requires left == Marked(GroupBatches(limits, calls, start, end), start) + rest
      requires FirstRaise(calls) < end ==> rest == []
      modifies this
      ensures pending == [] && Accounted(lost) && CompletedIn(log) <= Items(calls, 0, |calls|)
      ensures lost != [] ==> outcome.PublishRaised? && |lost| == 1 && LostLast(limits, log, lost[0])
      ensures outcome.Done? ==> lost == [] && Between(plan, rest, calls, end)
      ensures !outcome.Done? ==> YieldedIn(log) == Choices(calls)[..start]
      ensures !outcome.Done? ==> OnPlan(plan, BatchesIn(log))
      ensures outcome.ProducerRaised? ==>
          Unbroken() && attempts == |plan| && start <= FirstRaise(calls) < end && !EndsInFailure(log)
      ensures outcome.ProducerRaised? ==> CompletedIn(log) == Items(calls, 0, FirstRaise(calls)) && lost == []
      ensures outcome.PublishRaised? ==> Broken() && lost == Forced(plan, attempts) && GroupOf(plan, attempts) == start
    {
      ghost var n, made := attempts, BatchesIn(log);
      ghost var batches := GroupBatches(limits, calls, start, end);
      outcome, lost := ResolveGroup(calls, start, end);
      assert n <= attempts;
      PlanStep(plan, start, n, batches, rest, made, BatchesIn(log));
      ItemsSplit(calls, 0, Until(calls, end), |calls|);
    }

    /** The groups in turn, until a fault ends the run. */
    method ResolveGroups(ghost plan: seq<Publication>, calls: seq<Call>, groups: seq<seq<Item>>)
      returns (outcome: Outcome, ghost lost: seq<Item>, yielded: nat)
      requires log == [] && pending == [] && attempts == 0
      requires Covers(calls, groups) && plan == Planned(limits, calls, groups, 0)
      modifies this
      ensures pending == [] && Accounted(lost) && CompletedIn(log) <= Items(calls, 0, |calls|)
      ensures OnPlan(plan, BatchesIn(log)) && yielded <= |calls| && YieldedIn(log) == Choices(calls)[..yielded]
      ensures outcome.PublishRaised? ==>
          Broken() && lost == Forced(plan, attempts) && yielded == GroupOf(plan, attempts)
      ensures !outcome.PublishRaised? ==> Unbroken() && attempts == |plan| && lost == [] && !EndsInFailure(log)
      ensures outcome.ProducerRaised? ==>
        && FirstRaise(calls) < Covered(groups, |groups|) && CompletedIn(log) == Items(calls, 0, FirstRaise(calls))
        && yielded == GroupStart(groups, 0, FirstRaise(calls))
      ensures outcome.Done? ==>
        && yielded == Covered(groups, |groups|) <= FirstRaise(calls) && CompletedIn(log) == Items(calls, 0, yielded)
      ensures lost != [] ==> outcome.PublishRaised? && |lost| == 1 && LostLast(limits, log, lost[0])
    {
      lost, outcome, yielded := [], Done, 0;
      for g := 0 to |groups|
        invariant lost == [] && outcome.Done? && yielded == Covered(groups, g) <= FirstRaise(calls)
        invariant Between(plan, Planned(limits, calls, groups, g), calls, yielded)
        invariant GroupStart(groups, 0, FirstRaise(calls)) == GroupStart(groups, g, FirstRaise(calls))
      {
        var end := yielded + |groups[g]|;
        ghost var left, rest := Planned(limits, calls, groups, g), PlannedAfter(limits, calls, groups, g);
        assert end == Covered(groups, g + 1);
        outcome, lost := ResolveNext(plan, left, rest, calls, yielded, end);
        if !outcome.Done? { return; }
        yielded := end;
      }
      ItemsSplit(calls, 0, yielded, |calls|);
    }

    /** `resolve_many`: groups within the row and byte limits, each resolved and then yielded in call order. How it
        ends, what it publishes, loses and yields is settled by the calls, the limits and the publications that fail. */
    method ResolveMany(calls: seq<Call>, grouping: Limits)
        returns (outcome: Outcome, refused: bool, ghost lost: seq<Item>)
      requires log == [] && pending == [] && attempts == 0
      modifies this
      ensures pending == [] && Accounted(lost) && YieldsAfterPublish(log)
      ensures outcome == Ending(limits, publishes, grouping, calls) && lost == Lost(limits, publishes, grouping, calls)
      ensures var plan := PlanOf(limits, grouping, calls);
          attempts == Made(publishes, plan) && OnPlan(plan, BatchesIn(log))
      ensures YieldedIn(log) == Choices(calls)[..Yielded(limits, publishes, grouping, calls)]
      ensures outcome.PublishRaised? <==> EndsInFailure(log)
      ensures outcome.ProducerRaised? ==> CompletedIn(log) == AttemptedIn(log) == Items(calls, 0, FirstRaise(calls))
      ensures lost != [] ==> outcome.PublishRaised? && |lost| == 1 && LostLast(limits, log, lost[0])
      ensures refused <==> outcome.Done? && exists i :: 0 <= i < |calls| && calls[i].size > grouping.size
      ensures outcome.Done? && !refused ==>
          YieldedIn(log) == Choices(calls) && CompletedIn(log) == Items(calls, 0, |calls|)
      ensures CompletedIn(log) <= Items(calls, 0, |calls|)
    {
      var groups, ok := BoundedRows(Rows(calls), grouping);
      ghost var plan := PlanOf(limits, grouping, calls);
      var yielded;
      GroupsCover(calls, grouping);
      OversizedRow(calls, grouping.size);
      outcome, lost, yielded := ResolveGroups(plan, calls, groups);
      refused := outcome.Done? && !ok;
      Settled(limits, publishes, grouping, calls, attempts, outcome, lost, yielded);
      WholeChoices(calls);
    }

    /** One assessed result's batch is held; `rest` is what comes after it. */
    method HoldNext(item: Item, ghost rest: seq<Item>, ghost plan: seq<seq<Item>>) returns (ok: bool)
      requires Accounted([]) && Unbroken() && Plan([item] + rest) == plan
      modifies this
      ensures if ok then Unbroken() && Accounted([]) && Plan(rest) == plan
          else Broken() && Accounted([item]) && pending == []
      ensures !ok ==> LostLast(limits, log, item) && Ended(plan, [item])
    {
      ok := Hold(item, rest);
      if !ok { EndsBefore(limits, BatchesIn(log), item, rest); }
    }

    /** The last commit: everything still pending, and nothing else is to come. */
    method FlushLast(ghost plan: seq<seq<Item>>) returns (ok: bool)
      requires Accounted([]) && Unbroken() && Plan([]) == plan
      modifies this
      ensures Accounted([]) && pending == [] && BatchesIn(log) == plan && if ok then Unbroken() else Broken()
    {
      ok := Flush([]);
    }

    /** `index_results`: assess each result, hold its batch, flush at the limits and at the end; a failing assessment
        first flushes what was assessed before it. The commits are the greedy batches of what is assessed before the
        first failure, up to the first commit that fails; what forced that one is lost. */
    method IndexResults(assessed: seq<Option<Item>>) returns (outcome: Outcome, ghost lost: seq<Item>)
      requires log == [] && pending == [] && attempts == 0
      modifies this
      ensures pending == [] && Accounted(lost)
      ensures var plan := Marked(Greedy(limits, [], Assessed(assessed)), 0);
        && OnPlan(plan, BatchesIn(log)) && attempts == Made(publishes, plan)
        && (outcome.PublishRaised? <==> Successes(publishes, 0, |plan|) < |plan|)
        && lost == if outcome.PublishRaised? then Forced(plan, attempts) else []
      ensures !outcome.PublishRaised? ==> outcome == if |Assessed(assessed)| < |assessed| then ProducerRaised else Done
      ensures !outcome.PublishRaised? ==> BatchesIn(log) == Greedy(limits, [], Assessed(assessed))
      ensures !outcome.PublishRaised? ==> CompletedIn(log) == Assessed(assessed)
      ensures lost != [] ==> |lost| == 1 && LostLast(limits, log, lost[0])
    {
      ghost var items := Assessed(assessed);
      var ok, done;
      ok, lost, done := HoldAll(assessed, items, Greedy(limits, [], items));
      if ok { ok := FlushLast(Greedy(limits, [], items)); }
      outcome := if !ok then PublishRaised else if done < |assessed| then ProducerRaised else Done;
      IndexEnds(limits, publishes, items, log, attempts, ok, lost);
    }

    /** Hold one assessed result after the other, until an assessment or a commit fails. */
    method HoldAll(assessed: seq<Option<Item>>, ghost items: seq<Item>, ghost plan: seq<seq<Item>>)
      returns (ok: bool, ghost lost: seq<Item>, done: nat)
      requires items == Assessed(assessed) && Accounted([]) && Unbroken() && Plan(items) == plan
      modifies this
      ensures ok ==> lost == [] && Accounted([]) && Unbroken() && Plan([]) == plan && done == |items|
      ensures !ok ==>
          |lost| == 1 && Accounted(lost) && Broken() && pending == [] && LostLast(limits, log, lost[0]) &&
          Ended(plan, lost)
    {
      lost, done := [], 0;
      assert assessed[0..] == assessed;
      while done < |assessed| && assessed[done].Some?
        invariant done <= |assessed| && lost == [] && Accounted([]) && Unbroken() &&
            Plan(Assessed(assessed[done..])) == plan
        invariant done + |Assessed(assessed[done..])| == |Assessed(assessed)|
      {
        var item := assessed[done].value;
        assert assessed[done..][1..] == assessed[done + 1..];
        ok := HoldNext(item, Assessed(assessed[done + 1..]), plan);
        if !ok {
          lost := [item];
          return;
        }
        done := done + 1;
      }
      ok := true;
    }
  }

  /** What is assessed before the first assessment that fails. */
  function Assessed(assessed: seq<Option<Item>>): seq<Item> {
    if assessed == [] || assessed[0].None? then [] else [assessed[0].value] + Assessed(assessed[1..])
  }

  lemma IndexEnds(limits: Limits, publishes: nat -> bool, items: seq<Item>, log: seq<Event>, m: nat, ok: bool,
      lost: seq<Item>)
    requires var plan := Greedy(limits, [], items);
      && m == |BatchesIn(log)| && BatchesIn(log) <= plan && CompletedIn(log) == AttemptedIn(log) + lost
      && lost == NextItem(plan, m)
      && if ok then m == |plan| && forall i :: 0 <= i < m ==> publishes(i)
         else m > 0 && !publishes(m - 1) && forall i :: 0 <= i < m - 1 ==> publishes(i)
    ensures var plan := Marked(Greedy(limits, [], items), 0);
      && OnPlan(plan, BatchesIn(log)) && m == Made(publishes, plan)
      && (!ok <==> Successes(publishes, 0, |plan|) < |plan|) && lost == if !ok then Forced(plan, m) else []
    ensures ok ==> CompletedIn(log) == items && BatchesIn(log) == Greedy(limits, [], items)
  {
    PlanStep(Marked(Greedy(limits, [], items), 0), 0, 0, Greedy(limits, [], items), [], [], BatchesIn(log));
    EndedCompletes(limits, [], log, items, lost);
  }

  /** What calls `i` up to `end` still complete. */
  function ToCome(calls: seq<Call>, i: nat, end: nat): seq<Item>
    requires i <= end <= |calls|
  {
    if i <= Until(calls, end) then Items(calls, i, Until(calls, end)) else []
  }

  lemma ComesNext(calls: seq<Call>, i: nat, end: nat) returns (rest: seq<Item>)
    requires i < end <= |calls| && i <= FirstRaise(calls)
    ensures rest == ToCome(calls, i + 1, end) && ToCome(calls, i, end) == ItemAt(calls, i) + rest &&
        (Raising(calls[i]) ==> rest == [])
  {
    rest := ToCome(calls, i + 1, end);
  }

  lemma WholeChoices(calls: seq<Call>)
    ensures Choices(calls)[..|calls|] == Choices(calls)
  {
  }

  lemma OversizedRow(calls: seq<Call>, limit: nat)
    ensures (forall x :: x in Rows(calls) ==> x.size <= limit) <==>
        forall i :: 0 <= i < |calls| ==> calls[i].size <= limit
  {
    assert forall i :: 0 <= i < |calls| ==> Rows(calls)[i].size == calls[i].size;
    forall i | (forall x :: x in Rows(calls) ==> x.size <= limit) && 0 <= i < |calls| ensures calls[i].size <= limit {
      assert Rows(calls)[i] in Rows(calls);
    }
  }

  /** Where every publication succeeded, so did the last event, if it is one. */
  lemma LastPublished(log: seq<Event>, publishes: nat -> bool, n: nat)
    requires FlagsIn(log) == Flags(publishes, n) && forall i :: 0 <= i < n ==> publishes(i)
    ensures !EndsInFailure(log)
  {
    if log != [] && log[|log| - 1].Attempt? { LastFlag(log, publishes, n); }
  }

  lemma LastFlag(log: seq<Event>, publishes: nat -> bool, n: nat)
    requires FlagsIn(log) == Flags(publishes, n) && log != [] && log[|log| - 1].Attempt?
    ensures n > 0 && log[|log| - 1].published == publishes(n - 1)
  {
    assert FlagsIn(log)[|FlagsIn(log)| - 1] == log[|log| - 1].published;
    assert n > 0;
    assert Flags(publishes, n)[|Flags(publishes, n)| - 1] == publishes(n - 1);
  }

  /** The choices of all calls, in call order. */
  function Choices(calls: seq<Call>): seq<(nat, Choice)> {
    seq(|calls|, i requires 0 <= i < |calls| => (i, ChoiceOf(calls[i])))
  }

  /** The batches made hold exactly what was attempted. */
  lemma {:induction false} BatchesHold(log: seq<Event>)
    ensures Flatten(BatchesIn(log)) == AttemptedIn(log)
    decreases |log|
  {
    if log != [] {
      var n := |log| - 1;
      BatchesHold(log[..n]);
      if log[n].Attempt? {
        FlattenAppend(BatchesIn(log[..n]), log[n].batch);
      } else {
        assert BatchesIn(log) == BatchesIn(log[..n]);
      }
    }
  }

  /** From where a run ended in a plan: what it completed. */
  lemma EndedCompletes(limits: Limits, before: seq<Event>, after: seq<Event>, items: seq<Item>, lost: seq<Item>)
    requires CompletedIn(before) == AttemptedIn(before) && CompletedIn(after) == AttemptedIn(after) + lost
    requires var plan := BatchesIn(before) + Greedy(limits, [], items);
      BatchesIn(after) <= plan && lost == NextItem(plan, |BatchesIn(after)|)
    ensures CompletedIn(after) <= CompletedIn(before) + items
    ensures BatchesIn(after) == BatchesIn(before) + Greedy(limits, [], items) ==>
        CompletedIn(after) == CompletedIn(before) + items
  {
    var plan, n := BatchesIn(before) + Greedy(limits, [], items), |BatchesIn(after)|;
    BatchesHold(before);
    BatchesHold(after);
    GreedySplits(limits, [], items);
    FlattenConcat(BatchesIn(before), Greedy(limits, [], items));
    assert [] + items == items;
    FlattenUpTo(plan, n);
    assert BatchesIn(after) == plan[..n];
    if BatchesIn(after) == plan { assert lost == []; }
  }

  /** The first batches, with the first item of the next. */
  lemma FlattenUpTo(plan: seq<seq<Item>>, n: nat)
    requires n <= |plan|
    ensures Flatten(plan[..n]) + NextItem(plan, n) <= Flatten(plan)
  {
    assert plan == plan[..n] + plan[n..];
    FlattenConcat(plan[..n], plan[n..]);
    assert n < |plan| ==> plan[n..][0] == plan[n];
    LeadsFlatten(plan[n..], NextItem(plan, n));
    PrefixAfter(Flatten(plan[..n]), NextItem(plan, n), Flatten(plan[n..]));
  }

  lemma LeadsFlatten(batches: seq<seq<Item>>, lead: seq<Item>)
    requires lead == [] || (batches != [] && batches[0] != [] && lead == [batches[0][0]])
    ensures lead <= Flatten(batches)
  {
  }

  lemma PrefixAfter(front: seq<Item>, a: seq<Item>, b: seq<Item>)
    requires a <= b
    ensures front + a <= front + b
  {
  }

  /** An item in hand is the first of the next batch. */
  lemma EndsBefore(limits: Limits, made: seq<seq<Item>>, item: Item, rest: seq<Item>)
    ensures made <= made + Greedy(limits, [item], rest) &&
        NextItem(made + Greedy(limits, [item], rest), |made|) == [item]
  {
    GreedyStarts(limits, [item], rest);
  }

  /** The log ends with an item completed and the failing publication its size forced. */
  predicate LostLast(limits: Limits, log: seq<Event>, item: Item) {
    && |log| >= 2 && log[|log| - 1].Attempt? && !log[|log| - 1].published && log[|log| - 2] == Completed(item)
    && !Fits(limits, log[|log| - 1].batch + [item])
  }
}
