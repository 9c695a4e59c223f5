/** `run_once` as the sequential code a caller runs, over the ledger of RunOnce.  Every operation takes atomic steps of
    that machine, and may be killed before any of them. */
module RunOnceCall {
  import opened Prelude
  import opened RunOnce

  datatype Outcome = Answer(output: Output) | Raised | Busy | Killed

  /** What the caller's producer does when it is invoked. */
  datatype Producer = Produces(output: Output) | Raises

  /** The faults one call meets: a kill before its n-th ledger step, a publication that raises. */
  datatype Faults = Faults(killAfter: Option<nat>, publicationRaises: bool)

  const NO_FAULTS := Faults(None, false)

  /** The one attempt with a journal, if any, has this output staged. */
  ghost predicate JournaledOutput(attempts: map<ExecutionId, Attempt>, output: Output) {
    exists e :: e in attempts && HasJournal(attempts[e]) && attempts[e].result == Some(Success(output))
  }

  /** A result that is retained and available has this output. */
  ghost predicate AvailableOutput(attempts: map<ExecutionId, Attempt>, output: Output) {
    exists e :: e in attempts && attempts[e].retained && attempts[e].available &&
        attempts[e].result == Some(Success(output))
  }

  ghost predicate AllAvailable(s: State) {
    forall e :: e in s.attempts && s.attempts[e].retained ==> s.attempts[e].available
  }

  predicate Invocations(before: seq<Event>, after: seq<Event>, e: ExecutionId) {
    before <= after && forall i :: |before| <= i < |after| && after[i].Invoked? ==> after[i].e == e
  }

  predicate NoInvocation(before: seq<Event>, after: seq<Event>) {
    before <= after && forall i :: |before| <= i < |after| ==> !after[i].Invoked?
  }

  /** A call that recovers or publishes an attempt finds its journal and its successful result. */
  lemma OnJournal(actions: seq<Action>, c: CallId, e: ExecutionId)
    requires var s := Run(EMPTY, actions);
        e in s.attempts && (s.calls == map[c := Publishing(e)] || s.calls == map[c := Recovering(e)])
    ensures var s := Run(EMPTY, actions);
        HasJournal(s.attempts[e]) && s.attempts[e].result.Some? && s.attempts[e].result.value.Success?
  {
    InvRun(EMPTY, actions);
    var s := Run(EMPTY, actions);
    assert PhaseOk(s, s.calls[c]) && AttemptOk(s.attempts[e]);
  }

  /** Only the journaled attempt's output counts as the request's journaled output. */
  lemma TheOneJournal(actions: seq<Action>, e: ExecutionId)
    requires var s := Run(EMPTY, actions); e in s.attempts && HasJournal(s.attempts[e])
    ensures var s := Run(EMPTY, actions);
        forall output :: JournaledOutput(s.attempts, output) <==> s.attempts[e].result == Some(Success(output))
  {
    InvRun(EMPTY, actions);
  }

  /** A scan that ends without a find has ruled out every journal. */
  lemma NothingFound(actions: seq<Action>, c: CallId)
    requires Run(EMPTY, actions).calls == map[c := Scanning({})]
    ensures forall output :: !JournaledOutput(Run(EMPTY, actions).attempts, output)
  {
    InvRun(EMPTY, actions);
    var s := Run(EMPTY, actions);
    assert PhaseOk(s, s.calls[c]);
  }

  /** A scan that finds an attempt to recover, or ends without one, has met no result that was made unavailable. */
  lemma FoundAvailable(actions: seq<Action>, c: CallId)
    requires var s := Run(EMPTY, actions); c in s.calls && (s.calls[c] == Scanning({}) || s.calls[c].Recovering?)
    ensures AllAvailable(Run(EMPTY, actions))
  {
    InvRun(EMPTY, actions);
    var s := Run(EMPTY, actions);
    assert PhaseOk(s, s.calls[c]);
    forall e | e in s.attempts && s.attempts[e].retained ensures s.attempts[e].available {
      assert AttemptOk(s.attempts[e]);
    }
  }

  /** A recovering call's retained result is available. */
  lemma RecoversAvailable(actions: seq<Action>, c: CallId, e: ExecutionId)
    requires var s := Run(EMPTY, actions); e in s.attempts && c in s.calls && s.calls[c] == Recovering(e)
    ensures var a := Run(EMPTY, actions).attempts[e]; a.retained ==> a.available
  {
    InvRun(EMPTY, actions);
    assert PhaseOk(Run(EMPTY, actions), Recovering(e));
  }

  /** Where one call is alive, only its own step can end it, and then none is. */
  lemma OnlyCall(s: State, action: Action)
    requires !action.Remove?
    ensures s.calls.Keys == {action.c} && action.c !in Apply(s, action).calls ==> Apply(s, action).calls == map[]
  {
    if s.calls.Keys == {action.c} && action.c !in Apply(s, action).calls {
      assert Apply(s, action).calls.Keys <= {action.c};
      assert Apply(s, action).calls.Keys == {};
    }
  }

  class Operations {
    var s: State
    var budget: Option<nat>
    ghost var actions: seq<Action>

    /** The ledger is where some run of atomic steps has brought it. */
    ghost predicate Valid() reads this { s == Run(EMPTY, actions) }

    constructor ()
      ensures Valid() && s == EMPTY
    {
      s, budget, actions := EMPTY, None, [];
    }

    method Take(step: Action)
      requires Valid()
      modifies this`s, this`actions
      ensures Valid() && old(actions) <= actions && s == Apply(old(s), step)
    {
      RunStep(EMPTY, actions, step);
      s := Apply(s, step);
      actions := actions + [step];
    }

    /** Take one atomic ledger step, unless the process is killed first. */
    method Proceed(action: Action) returns (alive: bool)
      requires Valid() && !action.Remove?
      modifies this
      ensures Valid() && old(actions) <= actions
      ensures alive ==> s == Apply(old(s), action)
      ensures !alive ==> s == End(old(s), action.c) && old(budget).Some?
      ensures budget.Some? == old(budget).Some?
      ensures old(s.calls).Keys == {action.c} && action.c !in s.calls ==> s.calls == map[]
    {
      alive := budget != Some(0);
      var step := if alive then action else Crash(action.c);
      budget := if budget.Some? && alive then Some(budget.value - 1) else budget;
      OnlyCall(s, step);
      Take(step);
    }

    /** `_publish_journal`: retain the journal's records, index evidence; an exception is recorded and escapes. */
    method PublishJournal(c: CallId, e: ExecutionId, faults: Faults) returns (r: Outcome)
      requires Valid() && s.calls == map[c := Publishing(e)] && e in s.attempts
      modifies this
      ensures Valid() && old(actions) <= actions && s.calls == map[] && !r.Busy?
      ensures s.attempts.Keys == old(s.attempts).Keys
      ensures s.attempts[e].result == old(s.attempts[e].result)
      ensures old(s.log) <= s.log && Invocations(old(s.log), s.log, e) && NoInvocation(old(s.log), s.log)
      ensures HasJournal(s.attempts[e])
      ensures r.Answer? ==>
          s.attempts[e].result == Some(Success(r.output)) && s.attempts[e].retained && s.attempts[e].available
      ensures r.Raised? ==> s.attempts[e] == Note(old(s.attempts[e]), Interrupted)
      ensures (r.Killed? ==> old(budget).Some?) && (!r.Killed? ==> (r.Raised? <==> faults.publicationRaises))
      ensures old(budget).None? && !faults.publicationRaises ==> r.Answer?
    {
      OnJournal(actions, c, e);
      var alive: bool;
      if faults.publicationRaises {
        alive := Proceed(Interrupt(c));
        return if alive then Raised else Killed;
      }
      alive := Proceed(Commit(c));
      if !alive { return Killed; }
      alive := Proceed(Index(c));
      if !alive { return Killed; }
      r := Answer(s.attempts[e].result.value.output);
    }

    /** `recover`: answer from a retained result, or publish the journal again. */
    method RecoverJournal(c: CallId, e: ExecutionId, faults: Faults) returns (r: Outcome)
      requires Valid() && s.calls == map[c := Recovering(e)] && e in s.attempts
      modifies this
      ensures Valid() && old(actions) <= actions && s.calls == map[] && !r.Busy?
      ensures s.attempts.Keys == old(s.attempts).Keys
      ensures s.attempts[e].result == old(s.attempts[e].result)
      ensures old(s.log) <= s.log && NoInvocation(old(s.log), s.log)
      ensures HasJournal(s.attempts[e])
      ensures r.Answer? ==>
          s.attempts[e].result == Some(Success(r.output)) && s.attempts[e].retained && s.attempts[e].available
      ensures (r.Killed? ==> old(budget).Some?) && (r.Raised? ==> faults.publicationRaises)
      ensures old(budget).None? && !faults.publicationRaises ==> r.Answer?
    {
      OnJournal(actions, c, e);
      RecoversAvailable(actions, c, e);
      var retained := s.attempts[e].retained;
      var alive := Proceed(Recover(c));
      if !alive { return Killed; }
      if retained {
        r := Answer(s.attempts[e].result.value.output);
      } else {
        r := PublishJournal(c, e, faults);
      }
    }

    /** `prepare` up to the producer: mint an execution, record its start, invoke. */
    method Prepare(c: CallId, minted: ExecutionId) returns (alive: bool)
      requires Valid() && s.calls == map[c := Scanning({})] && minted !in s.attempts
      modifies this
      ensures Valid() && old(actions) <= actions
      ensures s.attempts.Keys <= old(s.attempts).Keys + {minted}
      ensures Invocations(old(s.log), s.log, minted)
      ensures alive ==> s.calls == map[c := Producing(minted)] && minted in s.attempts
      ensures !alive ==> s.calls == map[] && old(budget).Some?
      ensures budget.Some? == old(budget).Some?
    {
      alive := Proceed(Begin(c, minted));
      if !alive { return; }
      alive := Proceed(RecordStart(c));
      if !alive { return; }
      alive := Proceed(Invoke(c));
    }

    /** `_perform` when the producer raises: stage the failure, then record it. */
    method RecordRaise(c: CallId, e: ExecutionId) returns (r: Outcome)
      requires Valid() && s.calls == map[c := Producing(e)] && e in s.attempts
      modifies this
      ensures Valid() && old(actions) <= actions && s.calls == map[]
      ensures s.attempts.Keys == old(s.attempts).Keys && s.log == old(s.log)
      ensures r == Raised || (r == Killed && old(budget).Some?)
    {
      var alive := Proceed(Fail(c));
      if !alive { return Killed; }
      alive := Proceed(RecordFailure(c));
      r := if alive then Raised else Killed;
    }

    /** `publish` up to the journal: stage the completed output, then record its journal. */
    method RecordOutput(c: CallId, e: ExecutionId, output: Output) returns (alive: bool)
      requires Valid() && s.calls == map[c := Producing(e)] && e in s.attempts
      modifies this
      ensures Valid() && old(actions) <= actions
      ensures s.attempts.Keys == old(s.attempts).Keys
      ensures NoInvocation(old(s.log), s.log)
      ensures alive ==> s.calls == map[c := Publishing(e)] && s.attempts[e].result == Some(Success(output))
      ensures !alive ==> s.calls == map[] && old(budget).Some?
      ensures budget.Some? == old(budget).Some?
    {
      alive := Proceed(Finish(c, output));
      if !alive { return; }
      alive := Proceed(StageOutput(c));
      if !alive { return; }
      alive := Proceed(RecordJournal(c));
    }

    /** `run`: one fresh attempt. */
    method Work(c: CallId, minted: ExecutionId, producer: Producer, faults: Faults) returns (r: Outcome)
      requires Valid() && s.calls == map[c := Scanning({})] && minted !in s.attempts
      modifies this
      ensures Valid() && old(actions) <= actions && s.calls == map[] && !r.Busy?
      ensures s.attempts.Keys <= old(s.attempts).Keys + {minted}
      ensures Invocations(old(s.log), s.log, minted)
      ensures r.Answer? ==>
          producer == Produces(r.output) && JournaledOutput(s.attempts, r.output) &&
          AvailableOutput(s.attempts, r.output)
      ensures (r.Killed? ==> old(budget).Some?) && (r.Raised? ==> producer.Raises? || faults.publicationRaises)
      ensures old(budget).None? && !faults.publicationRaises && producer.Produces? ==> r == Answer(producer.output)
      ensures old(budget).None? && producer.Raises? ==> r == Raised
    {
      var alive := Prepare(c, minted);
      if !alive { return Killed; }
      match producer {
        case Raises => r := RecordRaise(c, minted);
        case Produces(output) =>
          alive := RecordOutput(c, minted, output);
          if !alive { return Killed; }
          r := PublishJournal(c, minted, faults);
      }
    }

    /** The scan of `run_once`: the first attempt with a retained result or a journal, if any. */
    method FindAttempt(c: CallId) returns (found: Option<ExecutionId>, stop: Option<Outcome>)
      requires Valid() && c in s.calls && s.calls == map[c := Scanning(s.attempts.Keys)]
      modifies this
      ensures Valid() && old(actions) <= actions
      ensures s.attempts == old(s.attempts) && s.log == old(s.log) && budget.Some? == old(budget).Some?
      ensures stop == None || (stop == Some(Killed) && old(budget).Some?) || (stop == Some(Raised) && !AllAvailable(s))
      ensures stop.Some? ==> s.calls == map[]
      ensures stop.None? ==> AllAvailable(s)
      ensures stop.None? && found.Some? ==> found.value in s.attempts && s.calls == map[c := Recovering(found.value)]
      ensures stop.None? && found.None? ==> s.calls == map[c := Scanning({})]
    {
      var listed := s.attempts.Keys;
      found, stop := None, None;
      while listed != {}
        invariant Valid() && old(actions) <= actions
        invariant s.calls == map[c := Scanning(listed)] && listed <= s.attempts.Keys
        invariant s.attempts == old(s.attempts) && s.log == old(s.log)
        invariant budget.Some? == old(budget).Some?
        decreases listed
      {
        var e :| e in listed;
        var alive := Proceed(Inspect(c, e));
        if !alive { return None, Some(Killed); }
        if c !in s.calls { return None, Some(Raised); }
        if s.calls[c].Recovering? {
          FoundAvailable(actions, c);
          return Some(e), None;
        }
        listed := listed - {e};
      }
      FoundAvailable(actions, c);
    }

    /** Under the guard: scan, then recover what is journaled or run afresh. */
    method Settle(c: CallId, minted: ExecutionId, producer: Producer, faults: Faults) returns (r: Outcome)
      requires Valid() && s.calls == map[c := Scanning(s.attempts.Keys)] && minted !in s.attempts
      modifies this
      ensures Valid() && old(actions) <= actions && s.calls == map[] && !r.Busy?
      ensures r.Answer? ==> JournaledOutput(s.attempts, r.output) && AvailableOutput(s.attempts, r.output)
      ensures r.Killed? ==> old(budget).Some?
      ensures r.Raised? ==> producer.Raises? || faults.publicationRaises || !AllAvailable(old(s))
      ensures !AllAvailable(old(s)) ==> !r.Answer? && s.attempts == old(s.attempts) && s.log == old(s.log)
      ensures !AllAvailable(old(s)) && old(budget).None? ==> r == Raised
      ensures forall output :: JournaledOutput(old(s.attempts), output) ==>
                NoInvocation(old(s.log), s.log) && (r.Answer? ==> r.output == output)
      ensures old(budget).None? && !faults.publicationRaises && AllAvailable(old(s)) ==>
                if exists output :: JournaledOutput(old(s.attempts), output) then r.Answer?
                else r == if producer.Produces? then Answer(producer.output) else Raised
    {
      var found, stop := FindAttempt(c);
      if stop.Some? { return stop.value; }
      if found.Some? {
        OnJournal(actions, c, found.value);
        TheOneJournal(actions, found.value);
        r := RecoverJournal(c, found.value, faults);
      } else {
        NothingFound(actions, c);
        r := Work(c, minted, producer, faults);
      }
    }

    /** One call.  A journaled attempt is finished, never repeated; without one the producer runs afresh. */
    method RunOnce(c: CallId, minted: ExecutionId, producer: Producer, faults: Faults) returns (r: Outcome)
      requires Valid() && c !in s.calls && minted !in s.attempts
      modifies this
      ensures Valid() && old(actions) <= actions
      ensures r.Busy? <==> old(s.calls) != map[]
      ensures s.calls == old(s.calls)
      ensures r.Answer? ==> JournaledOutput(s.attempts, r.output) && AvailableOutput(s.attempts, r.output)
      ensures r.Killed? ==> faults.killAfter.Some?
      ensures r.Raised? ==> producer.Raises? || faults.publicationRaises || !AllAvailable(old(s))
      ensures !AllAvailable(old(s)) ==> !r.Answer? && s.attempts == old(s.attempts) && s.log == old(s.log)
      ensures !AllAvailable(old(s)) && old(s.calls) == map[] && faults.killAfter.None? ==> r == Raised
      ensures forall output :: JournaledOutput(old(s.attempts), output) ==>
                NoInvocation(old(s.log), s.log) && (r.Answer? ==> r.output == output)
      ensures faults == NO_FAULTS && old(s.calls) == map[] && AllAvailable(old(s)) ==>
                if exists output :: JournaledOutput(old(s.attempts), output) then r.Answer?
                else r == if producer.Produces? then Answer(producer.output) else Raised
    {
      InvRun(EMPTY, actions);
      budget := faults.killAfter;
      if s.calls != map[] { return Busy; }
      var alive := Proceed(Enter(c));
      if !alive { return Killed; }
      r := Settle(c, minted, producer, faults);
    }
  }
}
