/** A document run that is suspended, killed and resumed, by any number of callers at once. */
module DocumentRun {
  // The state is what the ledger holds for ONE run identity, plus the live calls.
  // There is no request guard here: callers are kept apart only by the fixed
  // identity of the start unit and by the compare-and-set on the latest progress
  // entry.  One action is one ledger commit or one read; a disabled action
  // changes nothing, so a run is any sequence of actions.

  import opened Prelude

  type CallId = nat
  type ExecutionId = nat
  type UpdateId = nat

  /** The run's budget counters, as a checkpoint retains them. */
  datatype Counters = Counters(sourceBytes: nat, generatedRows: nat)

  const ZERO := Counters(0, 0)

  function Add(a: Counters, b: Counters): Counters {
    Counters(a.sourceBytes + b.sourceBytes, a.generatedRows + b.generatedRows)
  }

  datatype Entry =
    | Started(id: UpdateId)
    | Claim(id: UpdateId, of: UpdateId)
    | Checkpoint(id: UpdateId, saved: Counters)
    | Publication(id: UpdateId)
    | Failed(id: UpdateId)
    | Interrupted(id: UpdateId)

  datatype Attempt = Attempt(progress: seq<Entry>, staged: Option<Counters>, retained: bool)

  datatype Phase =
    | Listing
    | Starting(e: ExecutionId)
    | Begun(e: ExecutionId)
    | Reading(e: ExecutionId)
    | Resuming(e: ExecutionId)
    | Claiming(e: ExecutionId, checkpoint: UpdateId, saved: Counters)
    | Producing(e: ExecutionId, spent: Counters)
    | Suspending(e: ExecutionId, spent: Counters)
    | OutputStaged(e: ExecutionId)
    | Recovering(e: ExecutionId)
    | Publishing(e: ExecutionId)
    | Published(e: ExecutionId)

  datatype Event =
    | Worked(amount: Counters)                                  // work charged to the run
    | Continued(checkpoint: UpdateId, from: Counters)           // a continuation starts here
    | Returned(spent: Counters)                                 // a call returns this accounting

  datatype State = State(startUnit: Option<ExecutionId>, attempts: map<ExecutionId, Attempt>, calls: map<CallId, Phase>,
      log: seq<Event>)

  datatype Action =
    | Enter(c: CallId)
    | List(c: CallId, minted: ExecutionId)               // read the executions of the request
    | CommitStart(c: CallId)                             // the start batch, under its fixed unit identity
    | RecordStarted(c: CallId, id: UpdateId)
    | Read(c: CallId)                                    // read the result, then the progress
    | ReadFrontier(c: CallId)                            // `resume` reads the progress again and checks it
    | RecordClaim(c: CallId, id: UpdateId)               // compare-and-set on the latest entry
    | Work(c: CallId, amount: Counters)
    | Suspend(c: CallId)
    | RecordCheckpoint(c: CallId, id: UpdateId)
    | FailCheckpoint(c: CallId, id: UpdateId)
    | Finish(c: CallId)                                  // stage the state and the final accounting
    | RecordJournal(c: CallId, id: UpdateId)
    | Commit(c: CallId)
    | Return(c: CallId)
    | Recover(c: CallId)
    | Interrupt(c: CallId, id: UpdateId)
    | Crash(c: CallId)

  const EMPTY := State(None, map[], map[], [])

  function End(s: State, c: CallId): State { s.(calls := s.calls - {c}) }
  function Move(s: State, c: CallId, p: Phase): State { s.(calls := s.calls[c := p]) }
  function Put(s: State, e: ExecutionId, a: Attempt): State { s.(attempts := s.attempts[e := a]) }
  function Log(s: State, event: Event): State { s.(log := s.log + [event]) }
  function Note(a: Attempt, entry: Entry): Attempt { a.(progress := a.progress + [entry]) }

  predicate Fresh(a: Attempt, id: UpdateId) { forall i :: 0 <= i < |a.progress| ==> a.progress[i].id != id }
  predicate Journaled(a: Attempt) { exists i :: 0 <= i < |a.progress| && a.progress[i].Publication? }
  predicate AtCheckpoint(a: Attempt) { |a.progress| > 0 && Last(a).Checkpoint? }
  function Last(a: Attempt): Entry requires |a.progress| > 0 { a.progress[|a.progress| - 1] }

  function Apply(s: State, action: Action): State {
    match action
    case Enter(c) => if c !in s.calls then Move(s, c, Listing) else s
    case Crash(c) => End(s, c)
    case List(c, minted) => if c in s.calls && s.calls[c].Listing? then ListOne(s, c, minted) else s
    case CommitStart(c) =>
      if c in s.calls && s.calls[c].Starting? then
        // A second start under the same unit identity carries another execution, so it conflicts.
        if s.startUnit.None? && s.calls[c].e !in s.attempts
        then Move(Put(s, s.calls[c].e, Attempt([], None, false)), c, Begun(s.calls[c].e)).(startUnit :=
            Some(s.calls[c].e))
        else End(s, c)
      else s
    case _ =>
      if action.c in s.calls && !s.calls[action.c].Listing? && s.calls[action.c].e in s.attempts
      then Advance(s, action, s.calls[action.c], s.attempts[s.calls[action.c].e]) else s
  }

  function ListOne(s: State, c: CallId, minted: ExecutionId): State {
    if s.attempts == map[] then Move(s, c, Starting(minted))
    else if exists e :: e in s.attempts && s.attempts.Keys == {e} then
      var e :| e in s.attempts && s.attempts.Keys == {e}; Move(s, c, Reading(e))
    else End(s, c)
  }

  function Advance(s: State, action: Action, p: Phase, a: Attempt): State
    requires !p.Listing? && p.e in s.attempts && a == s.attempts[p.e]
    requires action.c in s.calls && s.calls[action.c] == p
  {
    var c, e := action.c, p.e;
    match action
    case RecordStarted(_, id) =>
      if p.Begun? && Fresh(a, id) then Move(Put(s, e, Note(a, Started(id))), c, Producing(e, ZERO)) else s
    case Read(_) => if p.Reading? then ReadOne(s, c, e, a) else s
    case ReadFrontier(_) =>
      if p.Resuming? then
        if AtCheckpoint(a) then Move(s, c, Claiming(e, Last(a).id, Last(a).saved)) else End(s, c)
      else s
    case RecordClaim(_, id) =>
      if p.Claiming? && Fresh(a, id) then
        if |a.progress| > 0 && Last(a).id == p.checkpoint
        then Log(Move(Put(s, e, Note(a, Claim(id, p.checkpoint))), c, Producing(e, p.saved)),
            Continued(p.checkpoint, p.saved))
        else End(s, c)
      else s
    case Work(_, amount) =>
        if p.Producing? then Log(Move(s, c, Producing(e, Add(p.spent, amount))), Worked(amount)) else s
    case Suspend(_) => if p.Producing? then Move(s, c, Suspending(e, p.spent)) else s
    case RecordCheckpoint(_, id) =>
        if p.Suspending? && Fresh(a, id) then End(Put(s, e, Note(a, Checkpoint(id, p.spent))), c) else s
    case FailCheckpoint(_, id) => if p.Suspending? && Fresh(a, id) then End(Put(s, e, Note(a, Failed(id))), c) else s
    case Finish(_) => if p.Producing? then Move(Put(s, e, a.(staged := Some(p.spent))), c, OutputStaged(e)) else s
    case RecordJournal(_, id) =>
        if p.OutputStaged? && Fresh(a, id) then Move(Put(s, e, Note(a, Publication(id))), c, Publishing(e)) else s
    case Commit(_) => if p.Publishing? then Move(Put(s, e, a.(retained := true)), c, Published(e)) else s
    case Return(_) => if p.Published? && a.staged.Some? then Log(End(s, c), Returned(a.staged.value)) else s
    case Recover(_) =>
      if p.Recovering? then
        if a.retained && a.staged.Some? then Log(End(s, c), Returned(a.staged.value))
        else if Journaled(a) then Move(s, c, Publishing(e)) else End(s, c)
      else s
    case Interrupt(_, id) =>
      if (p.OutputStaged? || p.Publishing? || p.Published?) && Fresh(a, id) then
          End(Put(s, e, Note(a, Interrupted(id))), c) else s
    case _ => s
  }

  /** A retained result, a checkpoint as the latest entry, a journal - or refusal. */
  function ReadOne(s: State, c: CallId, e: ExecutionId, a: Attempt): State {
    if a.retained then Move(s, c, Recovering(e))
    else if AtCheckpoint(a) then Move(s, c, Resuming(e))
    else if Journaled(a) then Move(s, c, Recovering(e))
    else End(s, c)
  }

  function Run(s: State, actions: seq<Action>): State
    decreases |actions|
  {
    if actions == [] then s else Apply(Run(s, actions[..|actions| - 1]), actions[|actions| - 1])
  }

  /** All work ever charged to the run. */
  function Total(log: seq<Event>): Counters {
    if log == [] then ZERO
    else var last := log[|log| - 1];
         if last.Worked? then Add(Total(log[..|log| - 1]), last.amount) else Total(log[..|log| - 1])
  }

  lemma TotalAppend(log: seq<Event>, event: Event)
    ensures Total(log + [event]) == if event.Worked? then Add(Total(log), event.amount) else Total(log)
  {
    assert (log + [event])[..|log|] == log;
  }

  // ----- the invariant -----

  /** The phases that control the execution: they alone work, suspend or finish. */
  predicate Controls(p: Phase) { p.Begun? || p.Producing? || p.Suspending? || p.OutputStaged? }

  predicate Controlled(s: State) { exists c :: c in s.calls && Controls(s.calls[c]) }

  predicate PhaseOk(s: State, p: Phase) {
    match p
    case Listing => true
    case Starting(_) => true
    case Begun(e) => e in s.attempts && s.attempts[e].progress == [] && s.log == []
    case Reading(e) => e in s.attempts
    case Resuming(e) => e in s.attempts
    case Claiming(e, id, saved) => e in s.attempts && Checkpoint(id, saved) in s.attempts[e].progress
    case Producing(e, spent) => e in s.attempts && Running(s.attempts[e]) && spent == Total(s.log)
    case Suspending(e, spent) => e in s.attempts && Running(s.attempts[e]) && spent == Total(s.log)
    case OutputStaged(e) => e in s.attempts && Running(s.attempts[e]) && s.attempts[e].staged == Some(Total(s.log))
    case Recovering(e) => e in s.attempts && Journaled(s.attempts[e])
    case Publishing(e) => e in s.attempts && Journaled(s.attempts[e])
    case Published(e) => e in s.attempts && Journaled(s.attempts[e]) && s.attempts[e].retained
  }

  /** Work is under way: the latest entry is the start or a claim, and nothing is journaled. */
  predicate Running(a: Attempt) {
    |a.progress| > 0 && (Last(a).Started? || Last(a).Claim?) && !Journaled(a)
  }

  /** A claim directly follows the checkpoint it names. */
  predicate ClaimInPlace(ps: seq<Entry>, i: nat)
    requires i < |ps|
  {
    ps[i].Claim? ==> i > 0 && ps[i - 1].Checkpoint? && ps[i - 1].id == ps[i].of
  }

  /** Entries have their own identities, and every claim is in place. */
  predicate ProgressOk(ps: seq<Entry>) {
    && (forall i, j :: 0 <= i < j < |ps| ==> ps[i].id != ps[j].id)
    && (forall i :: 0 <= i < |ps| ==> ClaimInPlace(ps, i))
  }

  predicate AttemptOk(s: State, a: Attempt) {
    && ProgressOk(a.progress)
    && (AtCheckpoint(a) ==> !Controlled(s) && !Journaled(a) && Last(a).saved == Total(s.log))
    && (Journaled(a) ==> !Controlled(s) && a.staged == Some(Total(s.log)))
    && (a.retained ==> Journaled(a))
  }

  predicate LogOk(s: State) {
    && (forall i :: 0 <= i < |s.log| && s.log[i].Returned? ==>
          s.log[i].spent == Total(s.log) && exists e :: e in s.attempts && Journaled(s.attempts[e]))
    && (forall i :: 0 <= i < |s.log| && s.log[i].Continued? ==> Recorded(s, s.log[i].checkpoint, s.log[i].from))
  }

  /** A checkpoint was recorded with these counters. */
  predicate Recorded(s: State, checkpoint: UpdateId, saved: Counters) {
    exists e :: e in s.attempts && Checkpoint(checkpoint, saved) in s.attempts[e].progress
  }

  ghost predicate Inv(s: State) {
    && (forall e :: e in s.attempts <==> s.startUnit == Some(e))
    && (forall c, d :: c in s.calls && d in s.calls && Controls(s.calls[c]) && Controls(s.calls[d]) ==> c == d)
    && (forall c :: c in s.calls ==> PhaseOk(s, s.calls[c]))
    && (forall e :: e in s.attempts ==> AttemptOk(s, s.attempts[e]))
    && (s.startUnit.None? ==> s.log == [])
    && LogOk(s)
  }

  lemma InvStep(s: State, action: Action)
    requires Inv(s)
    ensures Inv(Apply(s, action))
  {
    if action.Enter? {
      if action.c !in s.calls { CallsOnly(s, Move(s, action.c, Listing), action.c); }
    } else if action.Crash? {
      CallsOnly(s, End(s, action.c), action.c);
    } else if action.List? {
      ListStep(s, action.c, action.minted);
    } else if action.CommitStart? {
      StartStep(s, action.c);
    } else if action.c in s.calls && !s.calls[action.c].Listing? && s.calls[action.c].e in s.attempts {
      InvAdvance(s, action, s.calls[action.c], s.attempts[s.calls[action.c].e]);
    }
  }

  /** One call moves to a phase that controls nothing, over an unchanged ledger. */
  lemma CallsOnly(s: State, t: State, c: CallId)
    requires Inv(s) && t.attempts == s.attempts && t.log == s.log && t.startUnit == s.startUnit
    requires t.calls.Keys <= s.calls.Keys + {c} && forall d :: d in t.calls && d != c ==>
        d in s.calls && t.calls[d] == s.calls[d]
    requires c in t.calls ==> PhaseOk(s, t.calls[c]) && (Controls(t.calls[c]) ==> c in s.calls && Controls(s.calls[c]))
    ensures Inv(t)
  {
    assert forall p: Phase :: PhaseOk(s, p) ==> PhaseOk(t, p);
    forall e | e in t.attempts ensures AttemptOk(t, t.attempts[e]) {
      assert AttemptOk(s, s.attempts[e]);
      if Controlled(t) {
        var d :| d in t.calls && Controls(t.calls[d]);
        assert d in s.calls && Controls(s.calls[d]);
      }
    }
  }

  lemma ListStep(s: State, c: CallId, minted: ExecutionId)
    requires Inv(s)
    ensures Inv(Apply(s, List(c, minted)))
  {
    if c in s.calls && s.calls[c].Listing? {
      var t := ListOne(s, c, minted);
      CallsOnly(s, t, c);
    }
  }

  lemma StartStep(s: State, c: CallId)
    requires Inv(s)
    ensures Inv(Apply(s, CommitStart(c)))
  {
    if c in s.calls && s.calls[c].Starting? {
      // The first start finds no attempt, so no other call controls one.
      if s.startUnit.Some? { CallsOnly(s, End(s, c), c); }
    }
  }

  lemma InvAdvance(s: State, action: Action, p: Phase, a: Attempt)
    requires Inv(s)
    requires !p.Listing? && p.e in s.attempts && a == s.attempts[p.e]
    requires action.c in s.calls && s.calls[action.c] == p
    ensures Inv(Advance(s, action, p, a))
  {
    var t := Advance(s, action, p, a);
    assert PhaseOk(s, p) && AttemptOk(s, a);
    if t == s {
    } else if t.attempts == s.attempts && t.log == s.log {
      CallsOnly(s, t, action.c);
    } else {
      ChangeStep(s, action, p, a);
    }
  }

  predicate Alone(s: State, c: CallId) { forall d :: d in s.calls && d != c ==> !Controls(s.calls[d]) }

  /** Journals, checkpoints and retention never go away, so a call that controls nothing stays in order. */
  lemma OthersKeep(s: State, t: State, e: ExecutionId, p: Phase)
    requires e in s.attempts && t.attempts.Keys == s.attempts.Keys == {e}
    requires s.attempts[e].progress <= t.attempts[e].progress && (s.attempts[e].retained ==> t.attempts[e].retained)
    requires PhaseOk(s, p) && !Controls(p)
    ensures PhaseOk(t, p)
  {
    assert forall i :: 0 <= i < |s.attempts[e].progress| ==> t.attempts[e].progress[i] == s.attempts[e].progress[i];
  }

  /** The invariant, from the one attempt, the log and the phase of the only call that controls. */
  lemma Rebuild(s: State, t: State, c: CallId, e: ExecutionId)
    requires Inv(s) && s.attempts.Keys == {e} && Alone(s, c)
    requires t.startUnit == s.startUnit && t.attempts.Keys == {e}
    requires s.attempts[e].progress <= t.attempts[e].progress && (s.attempts[e].retained ==> t.attempts[e].retained)
    requires t.calls.Keys <= s.calls.Keys + {c} && forall d :: d in t.calls && d != c ==>
        d in s.calls && t.calls[d] == s.calls[d]
    requires c in t.calls ==> PhaseOk(t, t.calls[c])
    requires AttemptOk(t, t.attempts[e]) && LogOk(t)
    ensures Inv(t)
  {
    forall d | d in t.calls ensures PhaseOk(t, t.calls[d]) {
      if d != c { OthersKeep(s, t, e, t.calls[d]); }
    }
  }

  /** A new last entry keeps identities distinct and claims right after their checkpoints. */
  lemma NoteOk(a: Attempt, entry: Entry)
    requires ProgressOk(a.progress) && Fresh(a, entry.id) &&
        (entry.Claim? ==> AtCheckpoint(a) && Last(a).id == entry.of)
    ensures var b := Note(a, entry);
      ProgressOk(b.progress) && Last(b) == entry && (Journaled(b) <==> Journaled(a) || entry.Publication?)
  {
    var b := Note(a, entry);
    forall i | 0 <= i < |b.progress| ensures ClaimInPlace(b.progress, i) {
      if i < |a.progress| { assert ClaimInPlace(a.progress, i); }
    }
    if Journaled(a) {
      var i :| 0 <= i < |a.progress| && a.progress[i].Publication?;
      assert b.progress[i].Publication?;
    }
    assert b.progress[|a.progress|] == entry;
  }

  /** `t` is `s` with one more progress entry on its one attempt. */
  predicate Noted(s: State, t: State, c: CallId, e: ExecutionId, entry: Entry) {
    && e in s.attempts && s.attempts.Keys == {e} && t.attempts == map[e := Note(s.attempts[e], entry)]
    && t.log == s.log && Fresh(s.attempts[e], entry.id)
    && t.startUnit == s.startUnit && OnlyCall(s, t, c)
  }

  predicate OnlyCall(s: State, t: State, c: CallId) {
    t.calls.Keys <= s.calls.Keys + {c} && forall d :: d in t.calls && d != c ==>
        d in s.calls && t.calls[d] == s.calls[d]
  }

  lemma NotedOk(s: State, t: State, c: CallId, e: ExecutionId, entry: Entry)
    requires Inv(s) && Noted(s, t, c, e, entry) && Alone(s, c) && !entry.Claim?
    requires c in t.calls ==> PhaseOk(t, t.calls[c])
    requires c in t.calls && Controls(t.calls[c]) ==>
        !entry.Checkpoint? && !entry.Publication? && !Journaled(s.attempts[e])
    requires entry.Checkpoint? ==> entry.saved == Total(s.log) && !Journaled(s.attempts[e])
    requires entry.Publication? ==> s.attempts[e].staged == Some(Total(s.log))
    ensures Inv(t)
  {
    var a := s.attempts[e];
    assert AttemptOk(s, a);
    NoteOk(a, entry);
    LogKeeps(s, t, e);
    assert AttemptOk(t, t.attempts[e]);
    Rebuild(s, t, c, e);
  }

  lemma LogKeeps(s: State, t: State, e: ExecutionId)
    requires LogOk(s) && t.log == s.log && s.attempts.Keys == {e} == t.attempts.Keys
    requires s.attempts[e].progress <= t.attempts[e].progress
    ensures LogOk(t)
  {
    assert forall i :: 0 <= i < |s.attempts[e].progress| ==> t.attempts[e].progress[i] == s.attempts[e].progress[i];
  }

  lemma ChangeStep(s: State, action: Action, p: Phase, a: Attempt)
    requires Inv(s) && PhaseOk(s, p) && AttemptOk(s, a)
    requires !p.Listing? && p.e in s.attempts && a == s.attempts[p.e]
    requires action.c in s.calls && s.calls[action.c] == p
    requires var t := Advance(s, action, p, a); t.attempts != s.attempts || t.log != s.log
    ensures Inv(Advance(s, action, p, a))
  {
    assert s.attempts.Keys == {p.e};
    if action.RecordClaim? {
      ClaimStep(s, action, p, a);
    } else if Controls(p) {
      assert Controlled(s) && Alone(s, action.c) && !Journaled(a);
      ControllerStep(s, action, p, a);
    } else {
      assert Journaled(a) && !Controlled(s) && Alone(s, action.c);
      JournaledStep(s, action, p, a);
    }
  }

  /** What the step lemmas share: the call stands alone at its phase on the one attempt. */
  ghost predicate Stands(s: State, action: Action, p: Phase, a: Attempt) {
    && Inv(s) && PhaseOk(s, p) && AttemptOk(s, a) && !p.Listing?
    && p.e in s.attempts && a == s.attempts[p.e] && s.attempts.Keys == {p.e}
    && action.c in s.calls && s.calls[action.c] == p && Alone(s, action.c)
  }

  lemma ControllerStep(s: State, action: Action, p: Phase, a: Attempt)
    requires Stands(s, action, p, a) && Controls(p) && !Journaled(a)
    requires var t := Advance(s, action, p, a); t.attempts != s.attempts || t.log != s.log
    ensures Inv(Advance(s, action, p, a))
  {
    if action.Work? { WorkStep(s, action, p, a); }
    else if action.Finish? { FinishStep(s, action, p, a); }
    else { ControllerNotes(s, action, p, a); }
  }

  lemma JournaledStep(s: State, action: Action, p: Phase, a: Attempt)
    requires Stands(s, action, p, a) && !Controls(p) && !action.RecordClaim? && Journaled(a) && !Controlled(s)
    requires var t := Advance(s, action, p, a); t.attempts != s.attempts || t.log != s.log
    ensures Inv(Advance(s, action, p, a))
  {
    if action.Interrupt? { NotedOk(s, Advance(s, action, p, a), action.c, p.e, Interrupted(action.id)); }
    else if action.Commit? { CommitStep(s, action, p, a); }
    else { ReturnStep(s, action, p, a); }
  }

  lemma WorkStep(s: State, action: Action, p: Phase, a: Attempt)
    requires Stands(s, action, p, a) && action.Work? && p.Producing?
    ensures Inv(Advance(s, action, p, a))
  {
    assert Controlled(s);
    TotalAppend(s.log, Worked(action.amount));
    Rebuild(s, Advance(s, action, p, a), action.c, p.e);
  }

  lemma FinishStep(s: State, action: Action, p: Phase, a: Attempt)
    requires Stands(s, action, p, a) && action.Finish? && p.Producing?
    ensures Inv(Advance(s, action, p, a))
  {
    var t := Move(Put(s, p.e, a.(staged := Some(p.spent))), action.c, OutputStaged(p.e));
    assert Controlled(s) && t == Advance(s, action, p, a);
    Staged(s, t, action.c, p.e, p.spent);
    Rebuild(s, t, action.c, p.e);
  }

  lemma Staged(s: State, t: State, c: CallId, e: ExecutionId, spent: Counters)
    requires e in s.attempts && s.attempts.Keys == {e} && AttemptOk(s, s.attempts[e]) && LogOk(s)
    requires Running(s.attempts[e]) && spent == Total(s.log)
    requires t == Move(Put(s, e, s.attempts[e].(staged := Some(spent))), c, OutputStaged(e))
    ensures PhaseOk(t, OutputStaged(e)) && AttemptOk(t, t.attempts[e]) && LogOk(t)
    ensures s.attempts[e].progress <= t.attempts[e].progress && t.attempts.Keys == {e}
  {
    LogKeeps(s, t, e);
  }

  lemma ControllerNotes(s: State, action: Action, p: Phase, a: Attempt)
    requires Stands(s, action, p, a) && Controls(p) && !Journaled(a) && !action.Work? && !action.Finish?
    requires Advance(s, action, p, a).attempts != s.attempts
    ensures Inv(Advance(s, action, p, a))
  {
    var t, c := Advance(s, action, p, a), action.c;
    match action {
      case RecordStarted(_, id) => StartedNote(s, t, c, p.e, id);
      case RecordCheckpoint(_, id) => NotedOk(s, t, c, p.e, Checkpoint(id, p.spent));
      case FailCheckpoint(_, id) => NotedOk(s, t, c, p.e, Failed(id));
      case RecordJournal(_, id) => JournalNote(s, t, c, p.e, id);
      case Interrupt(_, id) => NotedOk(s, t, c, p.e, Interrupted(id));
      case _ =>
    }
  }

  lemma StartedNote(s: State, t: State, c: CallId, e: ExecutionId, id: UpdateId)
    requires Inv(s) && Noted(s, t, c, e, Started(id)) && Alone(s, c) && c in s.calls && s.calls[c] == Begun(e)
    requires c in t.calls && t.calls[c] == Producing(e, ZERO)
    ensures Inv(t)
  {
    assert PhaseOk(s, s.calls[c]);
    NoteOk(s.attempts[e], Started(id));
    NotedOk(s, t, c, e, Started(id));
  }

  lemma JournalNote(s: State, t: State, c: CallId, e: ExecutionId, id: UpdateId)
    requires Inv(s) && Noted(s, t, c, e, Publication(id)) && Alone(s, c) && c in s.calls &&
        s.calls[c] == OutputStaged(e)
    requires c in t.calls && t.calls[c] == Publishing(e)
    ensures Inv(t)
  {
    assert PhaseOk(s, s.calls[c]);
    NoteOk(s.attempts[e], Publication(id));
    NotedOk(s, t, c, e, Publication(id));
  }

  /** A claim that succeeds finds its checkpoint as the latest entry, with the counters it read. */
  lemma ClaimFinds(s: State, action: Action, p: Phase, a: Attempt)
    requires Inv(s) && PhaseOk(s, p) && AttemptOk(s, a) && p.Claiming?
    requires p.e in s.attempts && a == s.attempts[p.e] && |a.progress| > 0 && Last(a).id == p.checkpoint
    ensures Last(a) == Checkpoint(p.checkpoint, p.saved) && !Controlled(s) && !Journaled(a) && p.saved == Total(s.log)
  {
    var i :| 0 <= i < |a.progress| && a.progress[i] == Checkpoint(p.checkpoint, p.saved);
    assert i == |a.progress| - 1;
  }

  lemma ClaimStep(s: State, action: Action, p: Phase, a: Attempt)
    requires Inv(s) && PhaseOk(s, p) && AttemptOk(s, a) && action.RecordClaim? && p.Claiming?
    requires p.e in s.attempts && a == s.attempts[p.e] && action.c in s.calls && s.calls[action.c] == p &&
        s.attempts.Keys == {p.e}
    requires var t := Advance(s, action, p, a); t.attempts != s.attempts || t.log != s.log
    ensures Inv(Advance(s, action, p, a))
  {
    ClaimFinds(s, action, p, a);
    assert Alone(s, action.c);
    var t := Log(Move(Put(s, p.e, Note(a, Claim(action.id, p.checkpoint))), action.c, Producing(p.e, p.saved)),
        Continued(p.checkpoint, p.saved));
    assert t == Advance(s, action, p, a);
    Claimed(s, t, action.c, p.e, action.id, p.checkpoint, p.saved);
    Rebuild(s, t, action.c, p.e);
  }

  lemma Claimed(s: State, t: State, c: CallId, e: ExecutionId, id: UpdateId, checkpoint: UpdateId, saved: Counters)
    requires s.attempts.Keys == {e} && AttemptOk(s, s.attempts[e]) && LogOk(s) && Fresh(s.attempts[e], id)
    requires |s.attempts[e].progress| > 0 && Last(s.attempts[e]) == Checkpoint(checkpoint, saved)
    requires t == Log(Move(Put(s, e, Note(s.attempts[e], Claim(id, checkpoint))), c, Producing(e, saved)),
        Continued(checkpoint, saved))
    ensures PhaseOk(t, Producing(e, saved)) && AttemptOk(t, t.attempts[e]) && LogOk(t)
  {
    var a := s.attempts[e];
    NoteOk(a, Claim(id, checkpoint));
    assert t.attempts[e].progress[|a.progress| - 1] == Last(a);
    ClaimLog(s, t, e, checkpoint, saved);
    TotalAppend(s.log, Continued(checkpoint, saved));
  }

  lemma ClaimLog(s: State, t: State, e: ExecutionId, checkpoint: UpdateId, saved: Counters)
    requires LogOk(s) && t.log == s.log + [Continued(checkpoint, saved)] && s.attempts.Keys == {e} == t.attempts.Keys
    requires s.attempts[e].progress <= t.attempts[e].progress && Checkpoint(checkpoint, saved) in t.attempts[e].progress
    ensures LogOk(t)
  {
    TotalAppend(s.log, Continued(checkpoint, saved));
    LogKeeps(s, t.(log := s.log), e);
  }

  lemma CommitStep(s: State, action: Action, p: Phase, a: Attempt)
    requires Stands(s, action, p, a) && action.Commit? && p.Publishing? && Journaled(a) && !Controlled(s)
    ensures Inv(Advance(s, action, p, a))
  {
    var t := Move(Put(s, p.e, a.(retained := true)), action.c, Published(p.e));
    assert t == Advance(s, action, p, a);
    Committed(s, t, action.c, p.e);
    Rebuild(s, t, action.c, p.e);
  }

  lemma Committed(s: State, t: State, c: CallId, e: ExecutionId)
    requires e in s.attempts && s.attempts.Keys == {e} && AttemptOk(s, s.attempts[e]) && LogOk(s) &&
        Journaled(s.attempts[e])
    requires t == Move(Put(s, e, s.attempts[e].(retained := true)), c, Published(e)) && !Controlled(t)
    ensures PhaseOk(t, Published(e)) && AttemptOk(t, t.attempts[e]) && LogOk(t)
    ensures s.attempts[e].progress <= t.attempts[e].progress && t.attempts.Keys == {e}
  {
    LogKeeps(s, t, e);
  }

  lemma ReturnStep(s: State, action: Action, p: Phase, a: Attempt)
    requires Stands(s, action, p, a) && Journaled(a) && !Controlled(s) && !Controls(p) &&
        (action.Return? || action.Recover?)
    requires Advance(s, action, p, a).attempts == s.attempts && Advance(s, action, p, a).log != s.log
    ensures Inv(Advance(s, action, p, a))
  {
    var t := Advance(s, action, p, a);
    TotalAppend(s.log, Returned(a.staged.value));
    assert LogOk(t);
    Rebuild(s, t, action.c, p.e);
  }

  lemma {:induction false} InvRun(s: State, actions: seq<Action>)
    requires Inv(s)
    ensures Inv(Run(s, actions))
    decreases |actions|
  {
    if actions != [] {
      var n := |actions| - 1;
      InvRun(s, actions[..n]);
      InvStep(Run(s, actions[..n]), actions[n]);
    }
  }

  // ----- the theorems, over every interleaving of callers and kills -----

  /** One execution per run, and at most one live call that works for it. */
  lemma OneControllingExecution(actions: seq<Action>)
    ensures var s := Run(EMPTY, actions);
      && (forall e, f :: e in s.attempts && f in s.attempts ==> e == f)
      && (forall c, d :: c in s.calls && d in s.calls && Controls(s.calls[c]) && Controls(s.calls[d]) ==> c == d)
  {
    InvRun(EMPTY, actions);
  }

  /** Each claim directly follows the checkpoint it names, and no checkpoint is claimed twice. */
  lemma CheckpointClaimedOnce(actions: seq<Action>, e: ExecutionId, i: nat, j: nat)
    requires var s := Run(EMPTY, actions);
        e in s.attempts && i < |s.attempts[e].progress| && s.attempts[e].progress[i].Claim?
    requires var s := Run(EMPTY, actions); j < |s.attempts[e].progress| && s.attempts[e].progress[j].Claim?
    ensures var ps := Run(EMPTY, actions).attempts[e].progress;
      && i > 0 && ps[i - 1].Checkpoint? && ps[i - 1].id == ps[i].of
      && (ps[i].of == ps[j].of ==> i == j)
  {
    InvRun(EMPTY, actions);
    ClaimsDiffer(Run(EMPTY, actions), e, i, j);
  }

  lemma ClaimsDiffer(s: State, e: ExecutionId, i: nat, j: nat)
    requires Inv(s) && e in s.attempts && i < |s.attempts[e].progress| && j < |s.attempts[e].progress|
    requires s.attempts[e].progress[i].Claim? && s.attempts[e].progress[j].Claim?
    ensures var ps := s.attempts[e].progress;
      i > 0 && ps[i - 1].Checkpoint? && ps[i - 1].id == ps[i].of && (ps[i].of == ps[j].of ==> i == j)
  {
    var ps := s.attempts[e].progress;
    assert AttemptOk(s, s.attempts[e]);
    assert ClaimInPlace(ps, i) && ClaimInPlace(ps, j);
    if i < j { assert ps[i - 1].id != ps[j - 1].id; }
    if j < i { assert ps[j - 1].id != ps[i - 1].id; }
  }

  /** No counter is ever reset: a working call, the latest checkpoint, every continuation's
      start and every returned accounting hold all the work charged to the run until then. */
  lemma CountersNeverReset(actions: seq<Action>)
    ensures var s := Run(EMPTY, actions);
      && (forall c :: c in s.calls && s.calls[c].Producing? ==> s.calls[c].spent == Total(s.log))
      && (forall e :: e in s.attempts && AtCheckpoint(s.attempts[e]) ==> Last(s.attempts[e]).saved == Total(s.log))
      && (forall i :: 0 <= i < |s.log| && s.log[i].Returned? ==> s.log[i].spent == Total(s.log))
  {
    InvRun(EMPTY, actions);
    var s := Run(EMPTY, actions);
    forall c | c in s.calls && s.calls[c].Producing? ensures s.calls[c].spent == Total(s.log) {
      assert PhaseOk(s, s.calls[c]);
    }
    forall e | e in s.attempts && AtCheckpoint(s.attempts[e]) ensures Last(s.attempts[e]).saved == Total(s.log) {
      assert AttemptOk(s, s.attempts[e]);
    }
  }

  /** A continuation starts from exactly the counters its checkpoint saved. */
  lemma ContinuesFromSaved(actions: seq<Action>, i: nat)
    requires var s := Run(EMPTY, actions); i < |s.log| && s.log[i].Continued?
    ensures var s := Run(EMPTY, actions); Recorded(s, s.log[i].checkpoint, s.log[i].from)
  {
    InvRun(EMPTY, actions);
  }

  /** Started or claimed work whose caller is gone, with no checkpoint and no journal. */
  predicate Abandoned(s: State) {
    && s.startUnit.Some? && !Controlled(s)
    && forall e :: e in s.attempts ==> !Journaled(s.attempts[e]) && !AtCheckpoint(s.attempts[e])
  }

  lemma AbandonedStep(s: State, action: Action)
    requires Inv(s) && Abandoned(s)
    ensures Abandoned(Apply(s, action)) && Apply(s, action).attempts == s.attempts && Apply(s, action).log == s.log
  {
    var t := Apply(s, action);
    assert forall c :: c in s.calls ==> !Controls(s.calls[c]);
    if action.c in s.calls && !s.calls[action.c].Listing? && s.calls[action.c].e in s.attempts {
      AbandonedAdvance(s, action, s.calls[action.c], s.attempts[s.calls[action.c].e]);
    }
    assert forall c :: c in t.calls ==> !Controls(t.calls[c]);
  }

  lemma AbandonedAdvance(s: State, action: Action, p: Phase, a: Attempt)
    requires Inv(s) && Abandoned(s) && !p.Listing? && p.e in s.attempts && a == s.attempts[p.e]
    requires action.c in s.calls && s.calls[action.c] == p
    ensures var t := Advance(s, action, p, a);
      t.attempts == s.attempts && t.log == s.log && t.startUnit == s.startUnit && forall c :: c in t.calls ==>
          !Controls(t.calls[c])
  {
    assert PhaseOk(s, p) && AttemptOk(s, a) && !Controls(p);
    if p.Claiming? && |a.progress| > 0 && Last(a).id == p.checkpoint {
      ClaimFinds(s, action, p, a);
    }
  }

  /** A kill without a checkpoint is final: nothing works again, nothing is recorded and nothing
      returns, whoever calls; a reader of the progress is refused. */
  lemma {:induction false} KilledWorkIsNeverRestarted(actions: seq<Action>, more: seq<Action>)
    requires Abandoned(Run(EMPTY, actions))
    ensures var s, t := Run(EMPTY, actions), Run(Run(EMPTY, actions), more);
      && Inv(t) && Abandoned(t) && t.attempts == s.attempts && t.log == s.log
      && (forall c :: c in t.calls && t.calls[c].Reading? ==> Apply(t, Read(c)) == End(t, c))
    decreases |more|
  {
    var s := Run(EMPTY, actions);
    InvRun(EMPTY, actions);
    InvRun(s, more);
    if more != [] {
      var n := |more| - 1;
      KilledWorkIsNeverRestarted(actions, more[..n]);
      InvRun(s, more[..n]);
      AbandonedStep(Run(s, more[..n]), more[n]);
    }
    ReadersRefused(Run(s, more));
  }

  lemma ReadersRefused(t: State)
    requires Inv(t) && Abandoned(t)
    ensures forall c :: c in t.calls && t.calls[c].Reading? ==> Apply(t, Read(c)) == End(t, c)
  {
    forall c | c in t.calls && t.calls[c].Reading? ensures Apply(t, Read(c)) == End(t, c) {
      assert PhaseOk(t, t.calls[c]);
      assert AttemptOk(t, t.attempts[t.calls[c].e]);
    }
  }

  // ----- what a call gets that meets no other -----

  /** A new call comes to the one execution of its run. */
  lemma ComesToRead(s: State, e: ExecutionId, c: CallId, minted: ExecutionId)
    requires Inv(s) && e in s.attempts && c !in s.calls
    ensures Apply(Apply(s, Enter(c)), List(c, minted)) == Move(s, c, Reading(e))
    ensures AttemptOk(s, s.attempts[e])
  {
    assert s.attempts.Keys == {e};
    ListsTheOne(Apply(s, Enter(c)), e, c);
    assert s.calls[c := Listing][c := Reading(e)] == s.calls[c := Reading(e)];
  }

  /** The first call of a run starts its one execution and works from zero counters. */
  lemma FirstCallWorks(s: State, c: CallId, e: ExecutionId, id: UpdateId)
    requires Inv(s) && s.attempts == map[] && c !in s.calls
    ensures var t := Apply(Apply(Apply(Apply(s, Enter(c)), List(c, e)), CommitStart(c)), RecordStarted(c, id));
      && t.calls == s.calls[c := Producing(e, ZERO)] && t.startUnit == Some(e) && t.log == s.log == []
      && t.attempts == map[e := Attempt([Started(id)], None, false)]
  {
    assert forall f :: s.startUnit == Some(f) ==> f in s.attempts;
    var s1 := Apply(s, Enter(c));
    var s2 := Apply(s1, List(c, e));
    assert s2.calls == s.calls[c := Starting(e)];
    var s3 := Apply(s2, CommitStart(c));
    assert s3.calls == s.calls[c := Begun(e)] && s3.attempts == map[e := Attempt([], None, false)];
    assert Note(Attempt([], None, false), Started(id)) == Attempt([Started(id)], None, false);
  }

  /** A finished run is returned as it is retained, with all the work ever charged to it. */
  lemma RetainedIsReturned(s: State, e: ExecutionId, c: CallId, minted: ExecutionId)
    requires Inv(s) && e in s.attempts && s.attempts[e].retained && c !in s.calls
    ensures Apply(Apply(Apply(Apply(s, Enter(c)), List(c, minted)), Read(c)), Recover(c))
         == s.(log := s.log + [Returned(Total(s.log))])
  {
    ComesToRead(s, e, c, minted);
    var s3 := Apply(Move(s, c, Reading(e)), Read(c));
    assert s3 == Move(s, c, Recovering(e));
    assert Apply(s3, Recover(c)).calls == s.calls;
  }

  /** A run killed after its journal was recorded is published by the next call, and returned. */
  lemma JournalIsPublished(s: State, e: ExecutionId, c: CallId, minted: ExecutionId)
    requires Inv(s) && e in s.attempts && Journaled(s.attempts[e]) && !s.attempts[e].retained && c !in s.calls
    ensures Apply(Apply(Apply(Apply(Apply(Apply(s, Enter(c)), List(c, minted)), Read(c)), Recover(c)), Commit(c)),
                  Return(c))
         == Put(s, e, s.attempts[e].(retained := true)).(log := s.log + [Returned(Total(s.log))])
  {
    ComesToRead(s, e, c, minted);
    RecoversJournal(s, e, c);
    var s4 := Move(s, c, Publishing(e));
    PublishesNext(s4, e, c);
    assert s4.calls - {c} == s.calls;
  }

  lemma RecoversJournal(s: State, e: ExecutionId, c: CallId)
    requires e in s.attempts && Journaled(s.attempts[e]) && !s.attempts[e].retained && !AtCheckpoint(s.attempts[e])
    ensures Apply(Apply(Move(s, c, Reading(e)), Read(c)), Recover(c)) == Move(s, c, Publishing(e))
  {
    assert Apply(Move(s, c, Reading(e)), Read(c)) == Move(s, c, Recovering(e));
  }

  lemma PublishesNext(s: State, e: ExecutionId, c: CallId)
    requires e in s.attempts && c in s.calls && s.calls[c] == Publishing(e) && s.attempts[e].staged.Some?
    ensures var t := Put(s, e, s.attempts[e].(retained := true));
      Apply(Apply(s, Commit(c)), Return(c))
          == t.(calls := s.calls - {c}, log := s.log + [Returned(s.attempts[e].staged.value)])
  {
    var s1 := Apply(s, Commit(c));
    assert s1 == Move(Put(s, e, s.attempts[e].(retained := true)), c, Published(e));
    assert s1.calls - {c} == s.calls - {c};
  }

  /** A working call that finishes returns all the work ever charged to the run, and retains the result. */
  lemma WorkIsReturned(s: State, e: ExecutionId, c: CallId, id: UpdateId)
    requires Inv(s) && e in s.attempts && c in s.calls && s.calls[c].Producing? && s.calls[c].e == e &&
        Fresh(s.attempts[e], id)
    ensures var t := Apply(Apply(Apply(Apply(s, Finish(c)), RecordJournal(c, id)), Commit(c)), Return(c));
      && t.calls == s.calls - {c} && t.log == s.log + [Returned(Total(s.log))]
      && t.attempts == s.attempts[e :=
            Attempt(s.attempts[e].progress + [Publication(id)], Some(Total(s.log)), true)]
  {
    assert PhaseOk(s, s.calls[c]);
    var a := s.attempts[e].(staged := Some(Total(s.log)));
    var s1 := Apply(s, Finish(c));
    assert s1 == Move(Put(s, e, a), c, OutputStaged(e));
    var s2 := Apply(s1, RecordJournal(c, id));
    assert s2.calls == s.calls[c := Publishing(e)] && s2.attempts == s.attempts[e := Note(a, Publication(id))];
    PublishesNext(s2, e, c);
    assert s2.calls - {c} == s.calls - {c};
  }

  /** A working call that is suspended leaves a checkpoint of all the work charged to the run. */
  lemma WorkIsCheckpointed(s: State, e: ExecutionId, c: CallId, id: UpdateId)
    requires Inv(s) && e in s.attempts && c in s.calls && s.calls[c].Producing? && s.calls[c].e == e &&
        Fresh(s.attempts[e], id)
    ensures var t := Apply(Apply(s, Suspend(c)), RecordCheckpoint(c, id));
      && t.calls == s.calls - {c} && t.log == s.log
      && t.attempts == s.attempts[e := Note(s.attempts[e], Checkpoint(id, Total(s.log)))]
  {
    assert PhaseOk(s, s.calls[c]);
    assert s.calls[c := Suspending(e, Total(s.log))] - {c} == s.calls - {c};
  }

  /** A checkpointed run is not lost: a new call that meets no other continues from its counters. */
  lemma CheckpointCanBeContinued(s: State, e: ExecutionId, c: CallId, id: UpdateId)
    requires Inv(s) && e in s.attempts && AtCheckpoint(s.attempts[e]) && c !in s.calls && Fresh(s.attempts[e], id)
    ensures var t :=
        Apply(Apply(Apply(Apply(Apply(s, Enter(c)), List(c, e)), Read(c)), ReadFrontier(c)), RecordClaim(c, id));
      c in t.calls && t.calls[c] == Producing(e, Last(s.attempts[e]).saved) &&
          Last(s.attempts[e]).saved == Total(s.log)
  {
    assert AttemptOk(s, s.attempts[e]) && s.attempts.Keys == {e};
    ListsTheOne(Apply(s, Enter(c)), e, c);
    var s2 := Apply(Apply(s, Enter(c)), List(c, e));
    var s3 := Apply(s2, Read(c));
    assert s3 == Move(s2, c, Resuming(e));
    ClaimsNext(s3, e, c, id);
  }

  lemma ClaimsNext(s: State, e: ExecutionId, c: CallId, id: UpdateId)
    requires e in s.attempts && AtCheckpoint(s.attempts[e]) && c in s.calls && s.calls[c] == Resuming(e) &&
        Fresh(s.attempts[e], id)
    ensures var t := Apply(Apply(s, ReadFrontier(c)), RecordClaim(c, id));
      c in t.calls && t.calls[c] == Producing(e, Last(s.attempts[e]).saved)
  {
    assert Apply(s, ReadFrontier(c)) == Move(s, c, Claiming(e, Last(s.attempts[e]).id, Last(s.attempts[e]).saved));
  }

  lemma ListsTheOne(s: State, e: ExecutionId, c: CallId)
    requires s.attempts.Keys == {e} && c in s.calls && s.calls[c].Listing?
    ensures forall minted :: Apply(s, List(c, minted)) == Move(s, c, Reading(e))
  {
    assert exists f :: f in s.attempts && s.attempts.Keys == {f};
  }
}
