/** Retrying one exact request: attempts, journals, recovery and crashes. */
module RunOnce {
  // The state is what the metadata ledger holds for ONE request plus the calls
  // that are alive.  Every action below is one atomic ledger commit, or one read,
  // of `run_once`, `prepare`, `_perform`, `publish` and `recover`; a crash or an
  // escaping exception may fall between any two of them.  An action that is not
  // enabled changes nothing, so a run is any sequence of actions whatever and the
  // theorems quantify over all of them, for any number of concurrent callers.

  import opened Prelude

  type ExecutionId = nat
  type CallId = nat
  type Output = string

  /** A progress entry: only `Publication` names a journal of completed output. */
  datatype Entry = Started | Publication | Failed | Interrupted

  /** The staged `<execution>:result` record; staging does not retain it. */
  datatype Staged = Success(output: Output) | Failure

  datatype Attempt = Attempt(progress: seq<Entry>, result: Option<Staged>, retained: bool, available: bool)

  /** Where a live call stands. */
  datatype Phase =
    | Scanning(todo: set<ExecutionId>)
    | Recovering(e: ExecutionId)
    | Begun(e: ExecutionId)
    | Ready(e: ExecutionId)
    | Producing(e: ExecutionId)
    | Failing(e: ExecutionId)
    | Produced(e: ExecutionId, output: Output)
    | OutputStaged(e: ExecutionId)
    | Publishing(e: ExecutionId)
    | Indexing(e: ExecutionId)

  datatype Event =
    | Invoked(e: ExecutionId)
    | Completed(e: ExecutionId, output: Output)
    | Journaled(e: ExecutionId)
    | Returned(c: CallId, e: ExecutionId, output: Output)

  /** `calls` holds the owner of the request guard; the guard admits one. */
  datatype State = State(attempts: map<ExecutionId, Attempt>, calls: map<CallId, Phase>, log: seq<Event>)

  datatype Action =
    | Enter(c: CallId)                          // take the request guard and list the attempts
    | Inspect(c: CallId, e: ExecutionId)        // read one listed attempt's result and progress
    | Begin(c: CallId, e: ExecutionId)          // commit the start batch under a minted identity
    | RecordStart(c: CallId)
    | Invoke(c: CallId)                         // call the producer
    | Finish(c: CallId, output: Output)         // the producer returned
    | Fail(c: CallId)                           // the producer raised; its failure is staged
    | RecordFailure(c: CallId)
    | StageOutput(c: CallId)
    | RecordJournal(c: CallId)
    | Commit(c: CallId)                         // retain the journal's records
    | Index(c: CallId)                          // index evidence, return the result
    | Recover(c: CallId)                        // read result, journal and staged records
    | Interrupt(c: CallId)                      // publication raised: an `incomplete` entry, then raise
    | Crash(c: CallId)                          // the process dies, or an exception escapes
    | Remove(e: ExecutionId)                    // a removal makes a retained result unavailable

  const EMPTY := State(map[], map[], [])

  predicate HasJournal(a: Attempt) { Publication in a.progress }

  function Note(a: Attempt, entry: Entry): Attempt { a.(progress := a.progress + [entry]) }

  function End(s: State, c: CallId): State { s.(calls := s.calls - {c}) }

  function Move(s: State, c: CallId, p: Phase): State { s.(calls := s.calls[c := p]) }

  function Put(s: State, e: ExecutionId, a: Attempt): State { s.(attempts := s.attempts[e := a]) }

  function Log(s: State, event: Event): State { s.(log := s.log + [event]) }

  predicate At(s: State, c: CallId, e: ExecutionId) {
    c in s.calls && !s.calls[c].Scanning? && s.calls[c].e == e && e in s.attempts
  }

  /** One listed attempt: a retained result or a journal ends the scan. */
  function InspectOne(s: State, c: CallId, todo: set<ExecutionId>, e: ExecutionId): State
    requires e in s.attempts
  {
    var a := s.attempts[e];
    if a.retained then
      if a.available then Move(s, c, Recovering(e)) else End(s, c)
    else if HasJournal(a) then Move(s, c, Recovering(e))
    else Move(s, c, Scanning(todo - {e}))
  }

  /** `recover`: a retained result is the answer; otherwise the journal is published again. */
  function RecoverOne(s: State, c: CallId, e: ExecutionId): State
    requires e in s.attempts
  {
    var a := s.attempts[e];
    if a.retained then
      if a.result.Some? && a.result.value.Success? then Log(End(s, c), Returned(c, e, a.result.value.output))
          else End(s, c)
    else if HasJournal(a) && a.result.Some? && a.result.value.Success? then Move(s, c, Publishing(e))
    else End(s, c)
  }

  function Apply(s: State, action: Action): State {
    match action
    case Enter(c) =>
      if s.calls == map[] then Move(s, c, Scanning(s.attempts.Keys)) else s
    case Inspect(c, e) =>
      if c in s.calls && s.calls[c].Scanning? && e in s.calls[c].todo && e in s.attempts
      then InspectOne(s, c, s.calls[c].todo, e) else s
    case Begin(c, e) =>
      if c in s.calls && s.calls[c] == Scanning({}) && e !in s.attempts
      then Move(Put(s, e, Attempt([], None, false, false)), c, Begun(e)) else s
    case Crash(c) => End(s, c)
    case Remove(e) =>
      if s.calls == map[] && e in s.attempts && s.attempts[e].retained
      then Put(s, e, s.attempts[e].(available := false)) else s
    case _ =>
      if action.c in s.calls && !s.calls[action.c].Scanning? && s.calls[action.c].e in s.attempts
      then Advance(s, action, s.calls[action.c], s.attempts[s.calls[action.c].e]) else s
  }

  /** The steps a call takes once it works on one attempt. */
  function Advance(s: State, action: Action, p: Phase, a: Attempt): State
    requires !p.Scanning? && p.e in s.attempts && a == s.attempts[p.e]
    requires !action.Remove? && action.c in s.calls && s.calls[action.c] == p
  {
    var c, e := action.c, p.e;
    match action
    case RecordStart(_) => if p.Begun? then Move(Put(s, e, Note(a, Started)), c, Ready(e)) else s
    case Invoke(_) => if p.Ready? then Log(Move(s, c, Producing(e)), Invoked(e)) else s
    case Finish(_, output) => if p.Producing? then Log(Move(s, c, Produced(e, output)), Completed(e, output)) else s
    case Fail(_) => if p.Producing? then Move(Put(s, e, a.(result := Some(Failure))), c, Failing(e)) else s
    case RecordFailure(_) => if p.Failing? then End(Put(s, e, Note(a, Failed)), c) else s
    case StageOutput(_) =>
        if p.Produced? then Move(Put(s, e, a.(result := Some(Success(p.output)))), c, OutputStaged(e)) else s
    case RecordJournal(_) =>
      if p.OutputStaged? then Log(Move(Put(s, e, Note(a, Publication)), c, Publishing(e)), Journaled(e)) else s
    case Commit(_) =>
        if p.Publishing? then Move(Put(s, e, a.(retained := true, available := true)), c, Indexing(e)) else s
    case Index(_) =>
      if p.Indexing? && a.result.Some? && a.result.value.Success?
      then Log(End(s, c), Returned(c, e, a.result.value.output)) else s
    case Recover(_) => if p.Recovering? then RecoverOne(s, c, e) else s
    case Interrupt(_) =>
      if p.Produced? || p.OutputStaged? || p.Publishing? || p.Indexing? then End(Put(s, e, Note(a, Interrupted)), c)
          else s
    case _ => s
  }

  function Run(s: State, actions: seq<Action>): State
    decreases |actions|
  {
    if actions == [] then s else Apply(Run(s, actions[..|actions| - 1]), actions[|actions| - 1])
  }

  lemma RunStep(s: State, actions: seq<Action>, action: Action)
    ensures Run(s, actions + [action]) == Apply(Run(s, actions), action)
  {
    assert (actions + [action])[..|actions|] == actions;
  }

  // ----- the invariant -----

  /** The attempts a scanning call has ruled out hold neither a journal nor a retained result. */
  predicate PhaseOk(s: State, p: Phase) {
    match p
    case Scanning(todo) =>
      todo <= s.attempts.Keys &&
      forall e :: e in s.attempts && e !in todo ==> !HasJournal(s.attempts[e]) && !s.attempts[e].retained
    case Recovering(e) =>
        e in s.attempts && HasJournal(s.attempts[e]) && (s.attempts[e].retained ==> s.attempts[e].available)
    case Publishing(e) => e in s.attempts && HasJournal(s.attempts[e])
    case Indexing(e) =>
        e in s.attempts && HasJournal(s.attempts[e]) && s.attempts[e].retained && s.attempts[e].available
    case Begun(e) => Clear(s) && e in s.attempts && Invoked(e) !in s.log
    case Ready(e) => Clear(s) && e in s.attempts && Invoked(e) !in s.log
    case Produced(e, output) => Clear(s) && e in s.attempts && Completed(e, output) in s.log
    case OutputStaged(e) =>
        Clear(s) && e in s.attempts && s.attempts[e].result.Some? && s.attempts[e].result.value.Success?
    case _ => Clear(s) && p.e in s.attempts
  }

  predicate Clear(s: State) { forall e :: e in s.attempts ==> !HasJournal(s.attempts[e]) && !s.attempts[e].retained }

  predicate AttemptOk(a: Attempt) {
    && (a.retained ==> HasJournal(a))
    && (HasJournal(a) ==> a.result.Some? && a.result.value.Success?)
  }

  /** At most one attempt has a journal. */
  predicate OneJournal(s: State) {
    forall e, f :: e in s.attempts && f in s.attempts && HasJournal(s.attempts[e]) && HasJournal(s.attempts[f]) ==>
        e == f
  }

  /** The log agrees with the ledger: a journal event per journal, answers only from it. */
  predicate LogOk(s: State) {
    && (forall i :: 0 <= i < |s.log| && s.log[i].Journaled? ==>
          s.log[i].e in s.attempts && HasJournal(s.attempts[s.log[i].e]))
    && (forall i :: 0 <= i < |s.log| && s.log[i].Returned? ==>
          s.log[i].e in s.attempts && s.attempts[s.log[i].e].retained &&
          s.attempts[s.log[i].e].result == Some(Success(s.log[i].output)))
    && (forall e :: e in s.attempts && HasJournal(s.attempts[e]) ==> Journaled(e) in s.log)
    && (forall i, j :: 0 <= i < j < |s.log| && s.log[i].Journaled? ==> s.log[j].Returned?)
    && (forall i, j :: 0 <= i < j < |s.log| && s.log[i].Returned? ==> !s.log[j].Journaled?)
    && (forall i, j :: 0 <= i < j < |s.log| && s.log[i].Invoked? && s.log[j].Invoked? ==> s.log[i].e != s.log[j].e)
    && (forall i :: 0 <= i < |s.log| && s.log[i].Invoked? ==> s.log[i].e in s.attempts)
    && (forall e :: e in s.attempts && s.attempts[e].result.Some? && s.attempts[e].result.value.Success? ==>
          Completed(e, s.attempts[e].result.value.output) in s.log)
  }

  predicate Inv(s: State) {
    && (forall c, d :: c in s.calls && d in s.calls ==> c == d)
    && (forall c :: c in s.calls ==> PhaseOk(s, s.calls[c]))
    && (forall e :: e in s.attempts ==> AttemptOk(s.attempts[e]))
    && OneJournal(s)
    && LogOk(s)
  }

  /** Changing one attempt without touching its journal, and not the log, keeps both in agreement. */
  lemma AttemptChange(s: State, t: State, e: ExecutionId, a: Attempt)
    requires Inv(s) && e in s.attempts && t.attempts == s.attempts[e := a] && t.log == s.log
    requires HasJournal(a) == HasJournal(s.attempts[e]) && AttemptOk(a)
    requires s.attempts[e].retained ==> a.retained && a.result == s.attempts[e].result
    requires a.result.Some? && a.result.value.Success? ==> Completed(e, a.result.value.output) in s.log
    ensures OneJournal(t) && LogOk(t) && forall f :: f in t.attempts ==> AttemptOk(t.attempts[f])
  {
  }

  /** Appending an event that the ledger supports keeps log and ledger in agreement. */
  lemma EventAppended(s: State, t: State, event: Event)
    requires Inv(s) && t.attempts == s.attempts && t.log == s.log + [event]
    requires event.Returned? ==>
        event.e in s.attempts && s.attempts[event.e].retained &&
        s.attempts[event.e].result == Some(Success(event.output))
    requires event.Invoked? || event.Completed? ==> Clear(s)
    requires event.Invoked? ==> event.e in s.attempts && event !in s.log
    requires !event.Journaled?
    ensures LogOk(t)
  {
    forall e | e in t.attempts && t.attempts[e].result.Some? && t.attempts[e].result.value.Success?
      ensures Completed(e, t.attempts[e].result.value.output) in t.log
    {
      assert Completed(e, s.attempts[e].result.value.output) in s.log;
    }
    forall e | e in t.attempts && HasJournal(t.attempts[e]) ensures Journaled(e) in t.log {
      assert Journaled(e) in s.log;
    }
  }

  /** Moving calls over an unchanged ledger needs only their own phases. */
  lemma CallsChange(s: State, t: State)
    requires Inv(s) && t.attempts == s.attempts && t.log == s.log
    requires forall c, d :: c in t.calls && d in t.calls ==> c == d
    requires forall c :: c in t.calls ==> PhaseOk(s, t.calls[c])
    ensures Inv(t)
  {
    assert forall p: Phase :: PhaseOk(s, p) ==> PhaseOk(t, p);
  }

  lemma InvStep(s: State, action: Action)
    requires Inv(s)
    ensures Inv(Apply(s, action))
  {
    match action {
      case Enter(c) => CallsChange(s, Apply(s, action));
      case Inspect(c, e) =>
        if c in s.calls && s.calls[c].Scanning? && e in s.calls[c].todo && e in s.attempts {
          InspectKeeps(s, c, s.calls[c].todo, e);
        }
      case Begin(c, e) =>
        if c in s.calls && s.calls[c] == Scanning({}) && e !in s.attempts {
          BeginKeeps(s, c, e);
        }
      case Crash(c) => CallsChange(s, Apply(s, action));
      case Remove(e) =>
        if s.calls == map[] && e in s.attempts && s.attempts[e].retained {
          AttemptChange(s, Apply(s, action), e, s.attempts[e].(available := false));
        }
      case _ =>
        if action.c in s.calls && !s.calls[action.c].Scanning? && s.calls[action.c].e in s.attempts {
          InvAdvance(s, action, s.calls[action.c], s.attempts[s.calls[action.c].e]);
        }
    }
  }

  lemma InspectKeeps(s: State, c: CallId, todo: set<ExecutionId>, e: ExecutionId)
    requires Inv(s) && c in s.calls && s.calls[c] == Scanning(todo) && e in todo && e in s.attempts
    ensures Inv(InspectOne(s, c, todo, e))
  {
    assert PhaseOk(s, Scanning(todo)) && AttemptOk(s.attempts[e]);
    CallsChange(s, InspectOne(s, c, todo, e));
  }

  lemma BeginKeeps(s: State, c: CallId, e: ExecutionId)
    requires Inv(s) && c in s.calls && s.calls[c] == Scanning({}) && e !in s.attempts
    ensures Inv(Apply(s, Begin(c, e)))
  {
    assert Clear(s);
    var t := Apply(s, Begin(c, e));
    assert t.calls.Keys == s.calls.Keys;
    assert forall f :: f in t.attempts ==> f == e || f in s.attempts;
    assert Clear(t);
  }

  lemma InvAdvance(s: State, action: Action, p: Phase, a: Attempt)
    requires Inv(s)
    requires !p.Scanning? && p.e in s.attempts && a == s.attempts[p.e]
    requires !action.Remove? && action.c in s.calls && s.calls[action.c] == p
    ensures Inv(Advance(s, action, p, a))
  {
    var t := Advance(s, action, p, a);
    assert PhaseOk(s, p);
    if t == s {
    } else if t.log != s.log {
      LoggedStep(s, action, p, a);
    } else if t.attempts == s.attempts {
      CallsChange(s, t);
    } else {
      QuietStep(s, action, p, a);
    }
  }

  /** A step that changes the attempt and logs nothing writes no journal. */
  lemma QuietStep(s: State, action: Action, p: Phase, a: Attempt)
    requires Inv(s) && PhaseOk(s, p)
    requires !p.Scanning? && p.e in s.attempts && a == s.attempts[p.e]
    requires !action.Remove? && action.c in s.calls && s.calls[action.c] == p
    requires Advance(s, action, p, a).log == s.log && Advance(s, action, p, a).attempts != s.attempts
    ensures Inv(Advance(s, action, p, a))
  {
    var t, e := Advance(s, action, p, a), p.e;
    assert AttemptOk(a);
    QuietShape(s, action, p, a);
    QuietPhases(s, action, p, a);
    AttemptChange(s, t, e, t.attempts[e]);
  }

  lemma QuietPhases(s: State, action: Action, p: Phase, a: Attempt)
    requires Inv(s) && PhaseOk(s, p) && AttemptOk(a)
    requires !p.Scanning? && p.e in s.attempts && a == s.attempts[p.e]
    requires !action.Remove? && action.c in s.calls && s.calls[action.c] == p
    requires Advance(s, action, p, a).log == s.log && Advance(s, action, p, a).attempts != s.attempts
    ensures var t := Advance(s, action, p, a);
      (forall c, d :: c in t.calls && d in t.calls ==> c == d) && forall c :: c in t.calls ==> PhaseOk(t, t.calls[c])
  {
    var t := Advance(s, action, p, a);
    assert t.calls.Keys <= s.calls.Keys == {action.c};
  }

  lemma QuietShape(s: State, action: Action, p: Phase, a: Attempt)
    requires Inv(s) && PhaseOk(s, p) && AttemptOk(a)
    requires !p.Scanning? && p.e in s.attempts && a == s.attempts[p.e]
    requires !action.Remove? && action.c in s.calls && s.calls[action.c] == p
    requires Advance(s, action, p, a).log == s.log && Advance(s, action, p, a).attempts != s.attempts
    ensures var t := Advance(s, action, p, a);
      && p.e in t.attempts && t.attempts == s.attempts[p.e := t.attempts[p.e]]
      && HasJournal(t.attempts[p.e]) == HasJournal(a) && AttemptOk(t.attempts[p.e])
      && (a.retained ==> t.attempts[p.e].retained && t.attempts[p.e].result == a.result)
  {
  }

  lemma LoggedStep(s: State, action: Action, p: Phase, a: Attempt)
    requires Inv(s)
    requires !p.Scanning? && p.e in s.attempts && a == s.attempts[p.e]
    requires !action.Remove? && action.c in s.calls && s.calls[action.c] == p
    requires Advance(s, action, p, a).log != s.log
    ensures Inv(Advance(s, action, p, a))
  {
    var t := Advance(s, action, p, a);
    assert PhaseOk(s, p);
    if action.RecordJournal? {
      JournalStep(s, t, p.e, a);
    } else if action.Finish? {
      EventAppended(s, t, Completed(p.e, action.output));
    } else if action.Invoke? {
      EventAppended(s, t, Invoked(p.e));
    } else {
      EventAppended(s, t, Returned(action.c, p.e, a.result.value.output));
    }
  }

  lemma JournalStep(s: State, t: State, e: ExecutionId, a: Attempt)
    requires Inv(s) && Clear(s) && e in s.attempts && a == s.attempts[e] && a.result.Some? && a.result.value.Success?
    requires Completed(e, a.result.value.output) in s.log
    requires t.attempts == s.attempts[e := Note(a, Publication)] && t.log == s.log + [Journaled(e)]
    ensures OneJournal(t) && LogOk(t) && forall f :: f in t.attempts ==> AttemptOk(t.attempts[f])
  {
    JournalLogged(s, t, e, a);
  }

  lemma JournalLogged(s: State, t: State, e: ExecutionId, a: Attempt)
    requires LogOk(s) && Clear(s) && e in s.attempts && a == s.attempts[e]
    requires t.attempts == s.attempts[e := Note(a, Publication)] && t.log == s.log + [Journaled(e)]
    ensures LogOk(t)
  {
    assert t.log[|s.log|] == Journaled(e);
    forall f | f in t.attempts && t.attempts[f].result.Some? && t.attempts[f].result.value.Success?
      ensures Completed(f, t.attempts[f].result.value.output) in t.log
    {
      assert Completed(f, s.attempts[f].result.value.output) in s.log;
    }
  }

  lemma {:induction false} InvRun(s: State, actions: seq<Action>)
    requires Inv(s)
    ensures Inv(Run(s, actions))
    decreases |actions|
  {
    if actions != [] {
      var n := |actions| - 1;
      InvRun(s, actions[..n]);
      InvStep(Run(s, actions[..n]), actions[n]);
    }
  }

  // ----- the theorems, over every interleaving of calls, crashes and removals -----

  /** At most one attempt of a request ever gets a publication journal, and it gets it once. */
  lemma AtMostOneJournal(actions: seq<Action>)
    ensures var s := Run(EMPTY, actions);
      && OneJournal(s)
      && (forall i, j :: 0 <= i < |s.log| && 0 <= j < |s.log| && s.log[i].Journaled? && s.log[j].Journaled? ==> i == j)
  {
    InvRun(EMPTY, actions);
  }

  /** Once a journal is recorded the producer is never invoked again, and no execution is ever worked twice. */
  lemma NoWorkAfterJournal(actions: seq<Action>)
    ensures var log := Run(EMPTY, actions).log;
      && (forall i, j :: 0 <= i < j < |log| && log[i].Journaled? ==> !log[j].Invoked?)
      && (forall i, j :: 0 <= i < j < |log| && log[i].Invoked? && log[j].Invoked? ==> log[i].e != log[j].e)
  {
    InvRun(EMPTY, actions);
  }

  /** Every call that returns gives the output its producer completed, under the one journal recorded before. */
  lemma EveryAnswerIsTheJournaledOutput(actions: seq<Action>, j: nat)
    requires j < |Run(EMPTY, actions).log| && Run(EMPTY, actions).log[j].Returned?
    ensures var log := Run(EMPTY, actions).log;
      && Journaled(log[j].e) in log[..j]
      && Completed(log[j].e, log[j].output) in log[..j]
      && forall k :: 0 <= k < |log| && log[k].Returned? ==> log[k].e == log[j].e && log[k].output == log[j].output
  {
    InvRun(EMPTY, actions);
    AnswerInLog(Run(EMPTY, actions), j);
  }

  /** A step of any run that answers a call answers with a result that is retained and available at that moment. */
  lemma AnswersAreAvailable(actions: seq<Action>, action: Action, c: CallId, e: ExecutionId, output: Output)
    requires var s := Run(EMPTY, actions); Apply(s, action).log == s.log + [Returned(c, e, output)]
    ensures var s, t := Run(EMPTY, actions), Apply(Run(EMPTY, actions), action);
      && c in s.calls && c !in t.calls && t.attempts == s.attempts && e in s.attempts
      && s.attempts[e].retained && s.attempts[e].available && s.attempts[e].result == Some(Success(output))
  {
    InvRun(EMPTY, actions);
    AnswerStep(Run(EMPTY, actions), action, Returned(c, e, output));
  }

  lemma AnswerStep(s: State, action: Action, event: Event)
    requires forall c :: c in s.calls ==> PhaseOk(s, s.calls[c])
    requires event.Returned? && Apply(s, action).log == s.log + [event]
    ensures var t, e := Apply(s, action), event.e;
      && event.c in s.calls && event.c !in t.calls && t.attempts == s.attempts && e in s.attempts
      && s.attempts[e].retained && s.attempts[e].available && s.attempts[e].result == Some(Success(event.output))
  {
    assert Apply(s, action).log[|s.log|] == event;
  }

  lemma AnswerInLog(s: State, j: nat)
    requires Inv(s) && j < |s.log| && s.log[j].Returned?
    ensures Journaled(s.log[j].e) in s.log[..j] && Completed(s.log[j].e, s.log[j].output) in s.log[..j]
    ensures forall k :: 0 <= k < |s.log| && s.log[k].Returned? ==>
        s.log[k].e == s.log[j].e && s.log[k].output == s.log[j].output
  {
    var e := s.log[j].e;
    assert AttemptOk(s.attempts[e]);
    var i :| 0 <= i < |s.log| && s.log[i] == Journaled(e);
    assert s.log[..j][i] == Journaled(e);
    var k :| 0 <= k < |s.log| && s.log[k] == Completed(e, s.log[j].output);
    assert k < i;
    assert s.log[..j][k] == s.log[k];
    forall m | 0 <= m < |s.log| && s.log[m].Returned? ensures s.log[m].e == e {
      assert AttemptOk(s.attempts[s.log[m].e]);
    }
  }
}
