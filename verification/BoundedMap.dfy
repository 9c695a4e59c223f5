/** A bounded pool of workers: calls complete in any order, and results are yielded as they do. */
module BoundedMap {
  import opened Prelude

  /** The capacity is the smaller of two positive limits. */
  function WorkerCapacity(maxWorkers: int, maxInFlight: int): (r: Option<nat>)
    ensures r.Some? <==> maxWorkers > 0 && maxInFlight > 0
    ensures r.Some? ==> 0 < r.value <= maxWorkers && r.value <= maxInFlight && r.value in [maxWorkers, maxInFlight]
  {
    if maxWorkers <= 0 || maxInFlight <= 0 then None
    else Some(if maxWorkers < maxInFlight then maxWorkers else maxInFlight)
  }

  /** Items are named by their place in the source. */
  datatype Event = Submit(item: nat) | Yield(item: nat) | Raise(item: nat) | Cancel(items: set<nat>)

  datatype Outcome = Completed | Stopped | Raised(item: nat)

  // ----- what a run may do -----

  function Submitted(log: seq<Event>): nat {
    if log == [] then 0 else Submitted(log[..|log| - 1]) + if log[|log| - 1].Submit? then 1 else 0
  }

  /** Submitted and not yet answered. */
  function InFlight(log: seq<Event>): set<nat> {
    if log == [] then {}
    else
      var before := InFlight(log[..|log| - 1]);
      match log[|log| - 1]
      case Submit(i) => before + {i}
      case Yield(i) => before - {i}
      case Raise(i) => before - {i}
      case Cancel(s) => before - s
  }

  /** Items are taken in order, one at a time, and only into a free place; only a call in flight answers; what is
      cancelled is everything left. */
  predicate Step(before: seq<Event>, e: Event, capacity: nat) {
    match e
    case Submit(i) => i == Submitted(before) && |InFlight(before)| < capacity
    case Yield(i) => i in InFlight(before)
    case Raise(i) => i in InFlight(before)
    case Cancel(s) => s == InFlight(before)
  }

  predicate Sound(log: seq<Event>, capacity: nat) {
    log == [] || (Sound(log[..|log| - 1], capacity) && Step(log[..|log| - 1], log[|log| - 1], capacity))
  }

  lemma {:induction false} SoundPrefix(log: seq<Event>, capacity: nat, k: nat)
    requires Sound(log, capacity) && k <= |log|
    ensures Sound(log[..k], capacity)
    decreases |log|
  {
    if k < |log| {
      SoundPrefix(log[..|log| - 1], capacity, k);
      assert log[..|log| - 1][..k] == log[..k];
    } else {
      assert log[..k] == log;
    }
  }

  /** At no moment are more calls in flight than the capacity, and every one of them was submitted. */
  lemma {:induction false} BoundedAtEnd(log: seq<Event>, capacity: nat)
    requires Sound(log, capacity)
    ensures |InFlight(log)| <= capacity && forall i :: i in InFlight(log) ==> i < Submitted(log)
  {
    if log != [] {
      var before, e := log[..|log| - 1], log[|log| - 1];
      BoundedAtEnd(before, capacity);
      match e
      case Submit(i) => assert InFlight(log) == InFlight(before) + {i};
      case Yield(i) => Shrinks(InFlight(before), {i});
      case Raise(i) => Shrinks(InFlight(before), {i});
      case Cancel(s) => Shrinks(InFlight(before), s);
    }
  }

  lemma {:induction false} Shrinks(s: set<nat>, t: set<nat>)
    ensures |s - t| <= |s|
    decreases |s|
  {
    if s != {} {
      var x :| x in s;
      Shrinks(s - {x}, t);
      if x in t { assert s - t == s - {x} - t; } else { assert s - t == (s - {x} - t) + {x}; }
    }
  }

  /** At every moment of a run. */
  lemma AlwaysBounded(log: seq<Event>, capacity: nat, k: nat)
    requires Sound(log, capacity) && k <= |log|
    ensures |InFlight(log[..k])| <= capacity
  {
    SoundPrefix(log, capacity, k);
    BoundedAtEnd(log[..k], capacity);
  }

  lemma {:induction false} SubmitsGrow(log: seq<Event>, k: nat)
    requires k <= |log|
    ensures Submitted(log[..k]) <= Submitted(log)
    decreases |log| - k
  {
    if k < |log| {
      assert log[..k + 1][..k] == log[..k];
      SubmitsGrow(log, k + 1);
    } else {
      assert log[..k] == log;
    }
  }

  /** No item is submitted twice. */
  lemma SubmittedOnce(log: seq<Event>, capacity: nat, a: nat, b: nat)
    requires Sound(log, capacity) && a < b < |log| && log[a].Submit? && log[b].Submit?
    ensures log[a].item < log[b].item
  {
    StepAt(log, capacity, a);
    StepAt(log, capacity, b);
    assert log[..a + 1][..a] == log[..a];
    SubmitsGrow(log[..b], a + 1);
    assert log[..b][..a + 1] == log[..a + 1];
  }

  lemma StepAt(log: seq<Event>, capacity: nat, k: nat)
    requires Sound(log, capacity) && k < |log|
    ensures Step(log[..k], log[k], capacity)
  {
    SoundPrefix(log, capacity, k + 1);
    assert log[..k + 1][..k] == log[..k];
  }

  predicate Answers(e: Event, i: nat) { e == Yield(i) || e == Raise(i) }

  /** After its answer an item is never in flight again. */
  lemma {:induction false} GoneAfterAnswer(log: seq<Event>, capacity: nat, a: nat, i: nat)
    requires Sound(log, capacity) && a < |log| && Answers(log[a], i)
    ensures i !in InFlight(log) && i < Submitted(log)
    decreases |log|
  {
    var before, e := log[..|log| - 1], log[|log| - 1];
    StepAt(log, capacity, a);
    SoundPrefix(log, capacity, a);
    BoundedAtEnd(log[..a], capacity);
    if a < |log| - 1 {
      GoneAfterAnswer(before, capacity, a, i);
    } else {
      assert log[..a] == before;
    }
  }

  /** So no item is answered twice. */
  lemma AnsweredOnce(log: seq<Event>, capacity: nat, a: nat, b: nat, i: nat)
    requires Sound(log, capacity) && a < |log| && b < |log| && Answers(log[a], i) && Answers(log[b], i)
    ensures a == b
  {
    var x, y := if a < b then a else b, if a < b then b else a;
    if x < y {
      StepAt(log, capacity, y);
      SoundPrefix(log, capacity, y);
      GoneAfterAnswer(log[..y], capacity, x, i);
    }
  }

  /** An item submitted is in flight, answered, or cancelled with the rest. */
  lemma {:induction false} EveryItemAccounted(log: seq<Event>, capacity: nat, i: nat)
    requires Sound(log, capacity) && i < Submitted(log) && i !in InFlight(log)
    ensures exists k :: 0 <= k < |log| && (Answers(log[k], i) || (log[k].Cancel? && i in log[k].items))
    decreases |log|
  {
    var before, e := log[..|log| - 1], log[|log| - 1];
    if i < Submitted(before) && i !in InFlight(before) {
      EveryItemAccounted(before, capacity, i);
      var k :| 0 <= k < |before| && (Answers(before[k], i) || (before[k].Cancel? && i in before[k].items));
      assert log[k] == before[k];
    } else {
      assert log[|log| - 1] == e;
    }
  }

  // ----- the run -----

  ghost predicate Quiet(log: seq<Event>) { forall k :: 0 <= k < |log| ==> log[k].Submit? || log[k].Yield? }

  class Run {
    const capacity: nat
    const source: nat
    const raises: nat -> bool
    var pending: set<nat>
    var exhausted: bool
    var taken: nat
    var delivered: nat
    ghost var log: seq<Event>

    /** `source` items; `raises` says which calls raise. */
    constructor (capacity: nat, source: nat, raises: nat -> bool)
      requires capacity > 0
      ensures this.capacity == capacity && this.source == source && this.raises == raises
      ensures Going() && log == [] && delivered == 0
    {
      this.capacity, this.source, this.raises := capacity, source, raises;
      pending, exhausted, taken, delivered, log := {}, false, 0, 0, [];
    }

    ghost predicate Valid()
      reads this
    {
      && capacity > 0 && Sound(log, capacity) && pending == InFlight(log)
      && taken == Submitted(log) <= source && (exhausted ==> taken == source)
    }

    /** Nothing has raised or been cancelled so far. */
    ghost predicate Going()
      reads this
    { Valid() && Quiet(log) }

    /** Takes the next item of the source and submits it. */
    method Take()
      requires Going() && !exhausted && |pending| < capacity && taken < source
      modifies this
      ensures Going() && delivered == old(delivered) && !exhausted
      ensures taken == old(taken) + 1 && old(taken) !in old(pending) && pending == old(pending) + {old(taken)}
    {
      BoundedAtEnd(log, capacity);
      pending := pending + {taken};
      assert (log + [Submit(taken)])[..|log|] == log;
      log := log + [Submit(taken)];
      taken := taken + 1;
    }

    /** Takes items while there is a free place; stops at a full pool or at the end of the source. */
    method Fill()
      requires Going()
      modifies this
      ensures Going() && delivered == old(delivered) && taken >= old(taken)
      ensures exhausted || |pending| == capacity
      ensures old(exhausted) ==> exhausted && pending == old(pending) && taken == old(taken)
      ensures !exhausted || pending != {} || taken == source
      ensures old(pending) <= pending && |pending| == |old(pending)| + taken - old(taken)
    {
      BoundedAtEnd(log, capacity);
      while !exhausted && |pending| < capacity
        invariant Going() && delivered == old(delivered) && taken >= old(taken)
        invariant old(exhausted) ==> exhausted && pending == old(pending) && taken == old(taken)
        invariant old(pending) <= pending && |pending| == |old(pending)| + taken - old(taken) && |pending| <= capacity
        decreases source - taken, !exhausted
      {
        if taken == source { exhausted := true; } else { Take(); }
        BoundedAtEnd(log, capacity);
      }
      BoundedAtEnd(log, capacity);
    }

    /** Some calls are complete, at least one; which ones is not up to the caller. */
    method Wait() returns (completed: set<nat>)
      requires pending != {}
      ensures {} < completed <= pending
    {
      var first :| first in pending;
      completed := {first};
      var rest := pending - {first};
      while rest != {}
        invariant {} < completed <= pending && rest <= pending
        decreases |rest|
      {
        var other :| other in rest;
        rest := rest - {other};
        if * { completed := completed + {other}; }
      }
    }

    /** Yields the results in some order; a call that raises, or a consumer that stops, ends it. */
    method Collect(completed: set<nat>, limit: Option<nat>) returns (ended: Option<Outcome>)
      requires Going() && {} < completed <= pending
      modifies this
      ensures Valid() && taken == old(taken) && exhausted == old(exhausted)
      ensures ended.None? ==> Going() && pending == old(pending) - completed
      ensures ended.Some? ==> match ended.value
        case Completed => false
        case Stopped => limit.Some? && delivered == limit.value && Quiet(log)
        case Raised(i) => raises(i) && i < source && |log| > 0 && log[|log| - 1] == Raise(i) && Quiet(log[..|log| - 1])
    {
      ended := None;
      var rest := completed;
      ghost var left := pending - completed;
      while rest != {}
        invariant Going() && ended.None? && pending == left + rest && rest <= completed && left !! completed
        invariant taken == old(taken) && exhausted == old(exhausted)
        decreases |rest|
      {
        var i :| i in rest;
        WithoutOne(left, rest, i);
        rest := rest - {i};
        Answer(i);
        if raises(i) { return Some(Raised(i)); }
        if limit == Some(delivered) { return Some(Stopped); }
      }
    }

    /** `future.result()`: the call leaves the pending ones, then its result is yielded or its error escapes. */
    method Answer(i: nat)
      requires Going() && i in pending
      modifies this
      ensures Valid() && taken == old(taken) && exhausted == old(exhausted) && pending == old(pending) - {i} &&
          i < source
      ensures log == old(log) + [if raises(i) then Raise(i) else Yield(i)]
      ensures delivered == old(delivered) + if raises(i) then 0 else 1
      ensures !raises(i) ==> Going()
    {
      BoundedAtEnd(log, capacity);
      pending := pending - {i};
      ghost var e := if raises(i) then Raise(i) else Yield(i);
      assert (log + [e])[..|log|] == log;
      log := log + [e];
      if !raises(i) { delivered := delivered + 1; }
    }

    /** What is still pending is cancelled, however the run ends. */
    method CancelRest()
      requires Valid()
      modifies this
      ensures Sound(log, capacity) && log == old(log) + [Cancel(old(pending))] && InFlight(log) == {}
    {
      assert (log + [Cancel(pending)])[..|log|] == log;
      log := log + [Cancel(pending)];
    }

    /** The whole map.  It ends; the log tells what it did. */
    method Map(limit: Option<nat>) returns (outcome: Outcome)
      requires Going() && log == [] && delivered == 0
      modifies this
      ensures Sound(log, capacity) && |log| > 0 && log[|log| - 1].Cancel?
      ensures outcome == Completed ==>
          Quiet(log[..|log| - 1]) && Submitted(log) == source && log[|log| - 1] == Cancel({})
      ensures outcome == Stopped ==> limit.Some? && Quiet(log[..|log| - 1])
      ensures outcome.Raised? ==>
          outcome.item < source && raises(outcome.item) && |log| > 1 && log[|log| - 2] == Raise(outcome.item) &&
          Quiet(log[..|log| - 2])
    {
      outcome := Completed;
      var ended: Option<Outcome> := None;
      while pending != {} || !exhausted
        invariant Going() && ended.None?
        decreases source - taken + |pending|, |pending|, !exhausted
      {
        Fill();
        if pending != {} {
          var completed := Wait();
          ghost var before := pending;
          ended := Collect(completed, limit);
          if ended.Some? { break; }
          Fewer(before, completed);
        }
      }
      if ended.Some? { outcome := ended.value; }
      ghost var done := log;
      CancelRest();
      assert log[..|log| - 1] == done;
      if outcome.Raised? { assert log[..|log| - 2] == done[..|done| - 1]; }
    }
  }

  lemma WithoutOne(left: set<nat>, rest: set<nat>, i: nat)
    requires i in rest && i !in left
    ensures left + rest - {i} == left + (rest - {i}) && i !in left + (rest - {i})
  {
  }

  lemma Fewer(s: set<nat>, t: set<nat>)
    requires {} < t <= s
    ensures |s - t| < |s|
  {
    var x :| x in t;
    Shrinks(s - {x}, t);
    assert s - t == s - {x} - t;
  }

  /** A run that completed yielded every item of the source, each once, and nothing else. */
  lemma CompletedYieldsAll(log: seq<Event>, capacity: nat, source: nat, i: nat)
    requires Sound(log, capacity) && |log| > 0 && Quiet(log[..|log| - 1]) && log[|log| - 1] == Cancel({}) &&
        Submitted(log) == source
    ensures i < source <==> exists k :: 0 <= k < |log| && log[k] == Yield(i)
  {
    if i < source {
      StepAt(log, capacity, |log| - 1);
      EveryItemAccounted(log, capacity, i);
      var k :| 0 <= k < |log| && (Answers(log[k], i) || (log[k].Cancel? && i in log[k].items));
      assert k < |log| - 1 ==> log[..|log| - 1][k] == log[k];
    }
    if k :| 0 <= k < |log| && log[k] == Yield(i) { GoneAfterAnswer(log, capacity, k, i); }
  }
}
