/** Choosing retained results for new requests while other writers add evidence. */
module Reuse {
  // The ledger is shared: between any two of this caller's reads and commits
  // other writers may add dependency evidence, remove or restore results, and
  // publish selections.  Each such change of a result moves its evidence version
  // up, and a commit checks the versions it was prepared under.

  import opened Prelude

  type ResultId = nat
  type SelectionId = string
  type Digest = string
  type Evidence = string

  /** What one evidence version of a retained result stands for. */
  datatype Facts = Facts(version: nat, evidence: set<Evidence>, available: bool)

  /** An association; `request` and `definition` stand for the exact records retained with it. */
  datatype Selection = Selection(id: SelectionId, request: string, definition: string, target: string, labels: string,
      result: ResultId)

  datatype Call = Call(request: string, definition: string, target: string, labels: Option<string>,
      selectionId: SelectionId,
                       wanted: Option<Digest>)

  datatype Candidate = Candidate(ordinal: nat, result: ResultId, version: nat)

  /** The evaluated meaning of a result under its evidence: None when it is not adequate. */
  type Assessor = (ResultId, set<Evidence>) -> Option<Digest>

  type Policy = (nat, ResultId) -> bool

  type Table = map<ResultId, Facts>

  type Selections = map<SelectionId, Selection>

  /** What this caller did to the ledger or asked while looking at it, each with what the ledger held then. */
  datatype Event =
    | Assessed(ordinal: nat, result: ResultId, read: Option<Facts>)
    | Consulted(ordinal: nat, result: ResultId, facts: Facts, accepted: bool)
    | Committed(selection: Selection, version: nat, facts: Facts)

  /** The ledger; `log` and `theirs`, the selections other writers added, are only recorded. */
  datatype State = State(results: Table, selections: Selections, clock: nat, log: seq<Event>, theirs: Selections)

  /** What a run does not change: the index and its order, what results mean, their labels, and what other writers
      do. */
  datatype World = World(index: map<ResultId, set<Digest>>, order: seq<ResultId>, assess: Assessor,
      labels: ResultId -> string,
                         otherResults: (nat, Table) -> Table, otherSelections: (nat, Selections) -> Selections)

  /** Versions only grow, and an unchanged version means unchanged facts. */
  ghost predicate Grown(before: Table, after: Table) {
    forall r :: r in before ==> r in after && FactsGrown(before[r], after[r])
  }

  ghost predicate FactsGrown(f: Facts, g: Facts) {
    f.version <= g.version && (f.version == g.version ==> f == g)
  }

  /** Selections are immutable: later ledgers only hold more. */
  ghost predicate Kept(before: Selections, after: Selections) {
    forall id :: id in before ==> id in after && after[id] == before[id]
  }

  predicate Keyed(m: Selections) { forall id :: id in m ==> m[id].id == id }

  /** Other writers only move versions up and add selections. */
  ghost predicate Honest(w: World) {
    && (forall n, t :: Grown(t, w.otherResults(n, t)))
    && (forall n, m :: Kept(m, w.otherSelections(n, m)) && (Keyed(m) ==> Keyed(w.otherSelections(n, m))))
  }

  ghost predicate Quiet(w: World) {
    (forall n, t :: w.otherResults(n, t) == t) && (forall n, m :: w.otherSelections(n, m) == m)
  }

  lemma GrownTransitive(a: Table, b: Table, c: Table)
    requires Grown(a, b) && Grown(b, c)
    ensures Grown(a, c)
  {
    forall r | r in a ensures r in c && FactsGrown(a[r], c[r]) {
      assert FactsGrown(a[r], b[r]) && FactsGrown(b[r], c[r]);
    }
  }

  /** The same version twice means nothing happened in between. */
  lemma SameVersionSameFacts(a: Table, b: Table, c: Table, r: ResultId)
    requires Grown(a, b) && Grown(b, c) && r in a && c[r].version == a[r].version
    ensures b[r] == a[r] && c[r] == a[r]
  {
    assert FactsGrown(a[r], b[r]) && FactsGrown(b[r], c[r]);
  }

  // ----- the candidate join -----

  /** Candidate rows join on the digest a result was indexed under, which later evidence may outdate. */
  function FindCandidates(calls: seq<Call>, w: World, results: Table, ordinal: nat): seq<Candidate>
    requires ordinal <= |calls|
    decreases |calls| - ordinal
  {
    if ordinal == |calls| then []
    else
      Matches(calls[ordinal].wanted, w.index, w.order, results, ordinal)
      + FindCandidates(calls, w, results, ordinal + 1)
  }

  function Matches(wanted: Option<Digest>, index: map<ResultId, set<Digest>>, order: seq<ResultId>, results: Table,
      ordinal: nat)
    : (r: seq<Candidate>)
    ensures forall c :: c in r <==>
        c.ordinal == ordinal && Indexed(wanted, index, order, results, c.result) &&
        c.version == results[c.result].version
  {
    if order == [] then []
    else
      var x, rest := order[0], Matches(wanted, index, order[1..], results, ordinal);
      if x in index && x in results && wanted.Some? && wanted.value in index[x] && results[x].available
      then [Candidate(ordinal, x, results[x].version)] + rest else rest
  }

  /** An available result indexed under the digest wanted. */
  predicate Indexed(wanted: Option<Digest>, index: map<ResultId, set<Digest>>, order: seq<ResultId>, results: Table,
      x: ResultId) {
    wanted.Some? && x in order && x in index && x in results && wanted.value in index[x] && results[x].available
  }

  /** A row of the join: an indexed result of an open call, with its version. */
  predicate IsCandidate(calls: seq<Call>, w: World, results: Table, c: Candidate) {
    c.ordinal < |calls| && Indexed(calls[c.ordinal].wanted, w.index, w.order, results, c.result) &&
        c.version == results[c.result].version
  }

  lemma {:induction false} CandidatesMean(calls: seq<Call>, w: World, results: Table, ordinal: nat, c: Candidate)
    requires ordinal <= |calls|
    ensures c in FindCandidates(calls, w, results, ordinal) <==>
        ordinal <= c.ordinal && IsCandidate(calls, w, results, c)
    decreases |calls| - ordinal
  {
    if ordinal < |calls| { CandidatesMean(calls, w, results, ordinal + 1, c); }
  }

  // ----- one candidate -----

  /** Whatever other writers do before this caller's next step. */
  function AfterOthers(w: World, s: State): State {
    var joined := w.otherSelections(s.clock, s.selections);
    s.(results := w.otherResults(s.clock, s.results), selections := joined, clock := s.clock + 1,
       theirs := s.theirs + map id | id in joined && id !in s.selections :: joined[id])
  }

  function Note(s: State, event: Event): State { s.(log := s.log + [event]) }

  /** The result means, under its evidence now, what the call wants. */
  predicate Corresponds(w: World, s: State, wanted: Option<Digest>, r: ResultId) {
    wanted.Some? && r in s.results && w.assess(r, s.results[r].evidence) == wanted
  }

  /** The result is available under exactly this evidence version. */
  predicate Current(s: State, r: ResultId, version: nat) {
    r in s.results && s.results[r].available && s.results[r].version == version
  }

  predicate Holds(s: State, selection: Selection) {
    selection.id in s.selections && s.selections[selection.id] == selection
  }

  function SelectionFor(w: World, call: Call, r: ResultId): Selection {
    Selection(call.selectionId, call.request, call.definition, call.target, if call.labels.Some? then call.labels.value
        else w.labels(r), r)
  }

  /** One atomic commit: nothing is added when the identity is taken, or the version moved. */
  function AfterCommit(s: State, selection: Selection, version: nat): State {
    if selection.id in s.selections || !Current(s, selection.result, version) then s
    else Note(s.(selections := s.selections[selection.id := selection]),
        Committed(selection, version, s.results[selection.result]))
  }

  /** The publisher reads and checks correspondence again before it commits. */
  predicate Checked(w: World, s: State, selection: Selection, wanted: Option<Digest>, version: nat) {
    || selection.id in s.selections
    || (selection.result in s.results && s.results[selection.result].version == version &&
        Corresponds(w, s, wanted, selection.result))
  }

  function AfterPublish(w: World, s: State, selection: Selection, wanted: Option<Digest>, version: nat): State {
    if Checked(w, s, selection, wanted, version) then AfterCommit(AfterOthers(w, s), selection, version) else s
  }

  function Assess(w: World, s: State, c: Candidate): State {
    var t := AfterOthers(w, s); Note(t, Assessed(c.ordinal, c.result, Get(t.results, c.result)))
  }

  function Consult(s: State, policy: Policy, c: Candidate): State
    requires c.result in s.results
  {
    Note(s, Consulted(c.ordinal, c.result, s.results[c.result], policy(c.ordinal, c.result)))
  }

  /** Assess the candidate afresh, consult the policy, publish under the version the candidate was found with. */
  function AfterTry(w: World, s: State, calls: seq<Call>, policy: Policy, c: Candidate): State
    requires c.ordinal < |calls|
  {
    var call, seen := calls[c.ordinal], Assess(w, s, c);
    if !Corresponds(w, seen, call.wanted, c.result) then seen
    else if !policy(c.ordinal, c.result) then Consult(seen, policy, c)
    else AfterPublish(w, AfterOthers(w, Consult(seen, policy, c)), SelectionFor(w, call, c.result), call.wanted,
        c.version)
  }

  /** The slot of the call: filled when the candidate passed and the ledger ends with its selection, whoever added
      it. */
  function Answer(w: World, s: State, calls: seq<Call>, policy: Policy, c: Candidate,
      choices: seq<Option<Selection>>): seq<Option<Selection>>
    requires c.ordinal < |calls| == |choices|
  {
    var call := calls[c.ordinal];
    var selection := SelectionFor(w, call, c.result);
    if Corresponds(w, Assess(w, s, c), call.wanted, c.result) && policy(c.ordinal, c.result) &&
        Holds(AfterTry(w, s, calls, policy, c), selection)
    then choices[c.ordinal := Some(selection)] else choices
  }

  // ----- what every step keeps -----

  /** A run of this caller: what it was asked for, the state it began in, and the choices it found made. */
  datatype Job = Job(w: World, calls: seq<Call>, policy: Policy, s0: State, start: seq<Option<Selection>>)

  /** An event this caller's run may record: only what corresponds is put to the policy, with the facts just read, and
      only what the policy has just accepted is added, under the very facts it saw. */
  ghost predicate EventOk(job: Job, log: seq<Event>, k: nat)
    requires |job.start| == |job.calls| && |job.s0.log| <= k < |log|
  {
    match log[k]
    case Assessed(o, r, read) => o < |job.calls| && job.start[o].None?
    case Consulted(o, r, facts, accepted) =>
      && o < |job.calls| && job.start[o].None?
      && job.calls[o].wanted.Some? && job.w.assess(r, facts.evidence) == job.calls[o].wanted
      && accepted == job.policy(o, r) && k > |job.s0.log| && log[k - 1] == Assessed(o, r, Some(facts))
    case Committed(selection, version, facts) =>
      && k > |job.s0.log| && log[k - 1].Consulted? && log[k - 1].ordinal < |job.calls|
      && log[k - 1] == Consulted(log[k - 1].ordinal, selection.result, facts, true)
      && selection == SelectionFor(job.w, job.calls[log[k - 1].ordinal], selection.result)
      && facts.available && facts.version == version
  }

  ghost predicate EventsOk(job: Job, log: seq<Event>)
    requires |job.start| == |job.calls|
  {
    forall k :: |job.s0.log| <= k < |log| ==> EventOk(job, log, k)
  }

  /** Each association added fills the slot of the call it was made for. */
  predicate Fills(log: seq<Event>, choices: seq<Option<Selection>>, k: nat)
    requires k < |log| && log[k].Committed?
  {
    k > 0 && log[k - 1].Consulted? && log[k - 1].ordinal < |choices| &&
        choices[log[k - 1].ordinal] == Some(log[k].selection)
  }

  predicate CommitsOk(prior: Selections, log: seq<Event>, from: nat, choices: seq<Option<Selection>>) {
    && (forall k :: from <= k < |log| && log[k].Committed? ==> log[k].selection.id !in prior && Fills(log, choices, k))
    && (forall j, k :: from <= j < k < |log| && log[j].Committed? && log[k].Committed? ==>
        log[j].selection.id != log[k].selection.id)
  }

  predicate CommittedIn(log: seq<Event>, from: nat, selection: Selection) {
    exists k :: from <= k < |log| && log[k].Committed? && log[k].selection == selection
  }

  /** Whoever added a selection since is known: another writer, or a commit of this run. */
  predicate Traced(prior: Selections, s: State, from: nat) {
    && (forall id :: id in s.selections && id !in prior ==>
          (id in s.theirs && s.theirs[id] == s.selections[id]) || CommittedIn(s.log, from, s.selections[id]))
    && (forall k :: from <= k < |s.log| && s.log[k].Committed? ==> Holds(s, s.log[k].selection))
  }

  /** Every choice is a selection of the ledger for its own call; the first ones are kept. */
  predicate ChoicesOk(w: World, calls: seq<Call>, start: seq<Option<Selection>>, s: State,
      choices: seq<Option<Selection>>) {
    && |choices| == |start| == |calls|
    && (forall i :: 0 <= i < |calls| && start[i].Some? ==> choices[i] == start[i])
    && (forall i :: 0 <= i < |calls| && start[i].None? && choices[i].Some? ==>
          choices[i].value == SelectionFor(w, calls[i], choices[i].value.result) && Holds(s, choices[i].value))
  }

  ghost predicate Follows(s: State, t: State) {
    && Grown(s.results, t.results) && Kept(s.selections, t.selections) && (Keyed(s.selections) ==> Keyed(t.selections))
    && |s.log| <= |t.log| && t.log[..|s.log|] == s.log
  }

  /** What was read of a result is what the ledger held of it at some moment between these two. */
  ghost predicate Between(before: Table, r: ResultId, read: Option<Facts>, after: Table) {
    && (read.Some? ==> r in after && FactsGrown(read.value, after[r]))
    && (r in before ==> read.Some? && FactsGrown(before[r], read.value))
  }

  ghost predicate ReadsOk(before: Table, s: State, from: nat) {
    forall k :: from <= k < |s.log| && s.log[k].Assessed? ==> Between(before, s.log[k].result, s.log[k].read, s.results)
  }

  lemma ReadNow(before: Table, now: Table, r: ResultId)
    requires Grown(before, now)
    ensures Between(before, r, Get(now, r), now)
  {
    if r in before { assert FactsGrown(before[r], now[r]); }
  }

  lemma ReadsStay(before: Table, s: State, t: State, from: nat)
    requires ReadsOk(before, s, from) && Grown(s.results, t.results) && t.log == s.log
    ensures ReadsOk(before, t, from)
  {
    forall k | from <= k < |t.log| && t.log[k].Assessed?
        ensures Between(before, t.log[k].result, t.log[k].read, t.results) {
      assert Between(before, s.log[k].result, s.log[k].read, s.results);
      if t.log[k].read.Some? { assert FactsGrown(s.results[t.log[k].result], t.results[t.log[k].result]); }
    }
  }

  lemma ReadsGrow(before: Table, s: State, t: State, e: Event, from: nat)
    requires ReadsOk(before, s, from) && t.results == s.results && t.log == s.log + [e]
    requires e.Assessed? ==> Between(before, e.result, e.read, s.results)
    ensures ReadsOk(before, t, from)
  {
    forall k | from <= k < |t.log| && t.log[k].Assessed?
        ensures Between(before, t.log[k].result, t.log[k].read, t.results) {
      if k < |s.log| { assert Between(before, s.log[k].result, s.log[k].read, s.results); }
    }
  }

  /** Everything a run keeps, from the state `s0` in which it began. */
  ghost predicate Ok(job: Job, s: State, choices: seq<Option<Selection>>) {
    && Follows(job.s0, s) && ChoicesOk(job.w, job.calls, job.start, s, choices)
    && EventsOk(job, s.log)
    && CommitsOk(job.s0.selections, s.log, |job.s0.log|, choices) && Traced(job.s0.selections, s, |job.s0.log|)
    && ReadsOk(job.s0.results, s, |job.s0.log|)
  }

  lemma FollowsTransitive(a: State, b: State, c: State)
    requires Follows(a, b) && Follows(b, c)
    ensures Follows(a, c)
  {
    GrownTransitive(a.results, b.results, c.results);
    assert c.log[..|a.log|] == c.log[..|b.log|][..|a.log|];
  }

  lemma AfterFollows(w: World, s: State)
    requires Honest(w)
    ensures Follows(s, AfterOthers(w, s))
  {
    assert Grown(s.results, w.otherResults(s.clock, s.results)) &&
        Kept(s.selections, w.otherSelections(s.clock, s.selections));
    assert s.log[..|s.log|] == s.log;
  }

  lemma AfterOk(job: Job, s: State, choices: seq<Option<Selection>>)
    requires Honest(job.w) && Ok(job, s, choices)
    ensures Ok(job, AfterOthers(job.w, s), choices)
  {
    AfterFollows(job.w, s);
    FollowsTransitive(job.s0, s, AfterOthers(job.w, s));
    ReadsStay(job.s0.results, s, AfterOthers(job.w, s), |job.s0.log|);
  }

  /** An assessment or a consultation in its place is only recorded. */
  lemma NoteOk(job: Job, s: State, choices: seq<Option<Selection>>, e: Event)
    requires Ok(job, s, choices) && !e.Committed?
    requires EventOk(job, s.log + [e], |s.log|) &&
        (e.Assessed? ==> Between(job.s0.results, e.result, e.read, s.results))
    ensures Ok(job, Note(s, e), choices)
  {
    var t := Note(s, e);
    ReadsGrow(job.s0.results, s, t, e, |job.s0.log|);
    assert t.log[..|s.log|] == s.log;
    assert s.log[..|job.s0.log|] == t.log[..|job.s0.log|];
    EventsGrow(job, s.log, e);
    TracedGrows(job.s0.selections, s, t, |job.s0.log|);
    forall k | |job.s0.log| <= k < |t.log| && t.log[k].Committed? ensures Fills(t.log, choices, k) {
      assert Fills(s.log, choices, k);
    }
  }

  lemma EventsGrow(job: Job, log: seq<Event>, e: Event)
    requires |job.start| == |job.calls| && |job.s0.log| <= |log| && EventsOk(job, log) && EventOk(job, log + [e], |log|)
    ensures EventsOk(job, log + [e])
  {
    forall k | |job.s0.log| <= k < |log + [e]| ensures EventOk(job, log + [e], k) {
      if k < |log| { assert EventOk(job, log, k); }
    }
  }

  lemma TracedGrows(prior: Selections, s: State, t: State, from: nat)
    requires Traced(prior, s, from) && from <= |s.log| && t.selections == s.selections && t.theirs == s.theirs
    requires |s.log| + 1 == |t.log| && t.log[..|s.log|] == s.log && !t.log[|s.log|].Committed?
    ensures Traced(prior, t, from)
  {
    forall id | id in t.selections && id !in prior && CommittedIn(s.log, from, s.selections[id])
      ensures CommittedIn(t.log, from, t.selections[id])
    {
      var k :| from <= k < |s.log| && s.log[k].Committed? && s.log[k].selection == s.selections[id];
      assert t.log[k] == s.log[k];
    }
  }

  /** A commit of what the policy has just accepted, and the slot it fills. */
  lemma CommitOk(job: Job, s: State, choices: seq<Option<Selection>>, o: nat, selection: Selection, version: nat,
      facts: Facts)
    requires Ok(job, s, choices) && o < |job.calls| && choices[o].None?
    requires selection == SelectionFor(job.w, job.calls[o], selection.result)
    requires |s.log| > |job.s0.log| && s.log[|s.log| - 1] == Consulted(o, selection.result, facts, true)
    requires Current(s, selection.result, version) ==> s.results[selection.result] == facts
    ensures var t := AfterCommit(s, selection, version);
      Ok(job, t, if Holds(t, selection) then choices[o := Some(selection)] else choices)
  {
    var t := AfterCommit(s, selection, version);
    if selection.id in s.selections || !Current(s, selection.result, version) {
      if Holds(s, selection) { FillOk(job, s, choices, o, selection); }
    } else {
      AddOk(job, s, t, choices, o, selection, version, facts);
    }
  }

  lemma AddOk(job: Job, s: State, t: State, choices: seq<Option<Selection>>, o: nat, selection: Selection, version: nat,
      facts: Facts)
    requires Ok(job, s, choices) && o < |job.calls| && choices[o].None? && selection.id !in s.selections
    requires selection == SelectionFor(job.w, job.calls[o], selection.result)
    requires |s.log| > |job.s0.log| && s.log[|s.log| - 1] == Consulted(o, selection.result, facts, true)
    requires facts.available && facts.version == version
    requires t == Note(s.(selections := s.selections[selection.id := selection]), Committed(selection, version, facts))
    ensures Ok(job, t, choices[o := Some(selection)])
  {
    var e := Committed(selection, version, facts);
    assert t.log == s.log + [e] && t.log[..|s.log|] == s.log;
    EventsGrow(job, s.log, e);
    AddChoice(job, s, t, choices, o, selection);
    CommitFills(job.s0, s, t, choices, o, selection);
    CommitTraced(job.s0.selections, s, t, |job.s0.log|, selection);
    CommitFollows(s, t, selection);
    FollowsTransitive(job.s0, s, t);
    ReadsGrow(job.s0.results, s, t, e, |job.s0.log|);
  }

  lemma AddChoice(job: Job, s: State, t: State, choices: seq<Option<Selection>>, o: nat, selection: Selection)
    requires ChoicesOk(job.w, job.calls, job.start, s, choices) && o < |job.calls| && choices[o].None?
    requires selection == SelectionFor(job.w, job.calls[o], selection.result) && selection.id !in s.selections
    requires t.selections == s.selections[selection.id := selection]
    ensures ChoicesOk(job.w, job.calls, job.start, t, choices[o := Some(selection)])
  {
  }

  lemma FillOk(job: Job, s: State, choices: seq<Option<Selection>>, o: nat, selection: Selection)
    requires Ok(job, s, choices) && o < |job.calls| && choices[o].None?
    requires selection == SelectionFor(job.w, job.calls[o], selection.result) && Holds(s, selection)
    ensures Ok(job, s, choices[o := Some(selection)])
  {
    forall k | |job.s0.log| <= k < |s.log| && s.log[k].Committed?
        ensures Fills(s.log, choices[o := Some(selection)], k) {
      assert Fills(s.log, choices, k);
    }
  }

  lemma CommitFollows(s: State, t: State, selection: Selection)
    requires selection.id !in s.selections && t.results == s.results &&
        t.selections == s.selections[selection.id := selection]
    requires |t.log| == |s.log| + 1 && t.log[..|s.log|] == s.log
    ensures Follows(s, t)
  {
  }

  lemma CommitFills(s0: State, s: State, t: State, choices: seq<Option<Selection>>, o: nat, selection: Selection)
    requires |s0.log| < |s.log| && CommitsOk(s0.selections, s.log, |s0.log|, choices) &&
        Traced(s0.selections, s, |s0.log|)
    requires o < |choices| && choices[o].None? && selection.id !in s.selections && Kept(s0.selections, s.selections)
    requires s.log[|s.log| - 1].Consulted? && s.log[|s.log| - 1].ordinal == o
    requires |t.log| == |s.log| + 1 && t.log[..|s.log|] == s.log && t.log[|s.log|].Committed? &&
        t.log[|s.log|].selection == selection
    ensures CommitsOk(s0.selections, t.log, |s0.log|, choices[o := Some(selection)])
  {
    var n := |s.log|;
    forall k | |s0.log| <= k < |t.log| && t.log[k].Committed?
      ensures t.log[k].selection.id !in s0.selections && Fills(t.log, choices[o := Some(selection)], k)
    {
      assert t.log[n - 1] == s.log[n - 1];
      if k < n { assert t.log[k] == s.log[k] && Fills(s.log, choices, k) && t.log[k - 1] == s.log[k - 1]; }
    }
    forall j, k | |s0.log| <= j < k < |t.log| && t.log[j].Committed? && t.log[k].Committed?
      ensures t.log[j].selection.id != t.log[k].selection.id
    {
      assert t.log[j] == s.log[j];
      assert Holds(s, s.log[j].selection);
      if k < n { assert t.log[k] == s.log[k]; }
    }
  }

  lemma CommitTraced(prior: Selections, s: State, t: State, from: nat, selection: Selection)
    requires Traced(prior, s, from) && from <= |s.log| && selection.id !in s.selections
    requires t.selections == s.selections[selection.id := selection] && t.theirs == s.theirs
    requires |t.log| == |s.log| + 1 && t.log[..|s.log|] == s.log && t.log[|s.log|].Committed? &&
        t.log[|s.log|].selection == selection
    ensures Traced(prior, t, from)
  {
    var n := |s.log|;
    forall id | id in t.selections && id !in prior && (id == selection.id || CommittedIn(s.log, from, s.selections[id]))
      ensures CommittedIn(t.log, from, t.selections[id])
    {
      if id == selection.id {
        assert t.log[n].selection == selection;
      } else {
        var k :| from <= k < n && s.log[k].Committed? && s.log[k].selection == s.selections[id];
        assert t.log[k] == s.log[k];
      }
    }
    forall k | from <= k < |t.log| && t.log[k].Committed? ensures Holds(t, t.log[k].selection) {
      if k < n { assert t.log[k] == s.log[k] && Holds(s, s.log[k].selection); }
    }
  }

  // ----- a whole candidate -----

  lemma TryOk(job: Job, found: Table, s: State,
              choices: seq<Option<Selection>>, c: Candidate)
    requires Honest(job.w) && Ok(job, s, choices) && c.ordinal < |job.calls| && choices[c.ordinal].None?
    requires c.result in found && c.version == found[c.result].version && Grown(found, s.results)
    ensures Ok(job, AfterTry(job.w, s, job.calls, job.policy, c), Answer(job.w, s, job.calls, job.policy, c, choices))
    ensures Grown(found, AfterTry(job.w, s, job.calls, job.policy, c).results)
  {
    var call, seen := job.calls[c.ordinal], Assess(job.w, s, c);
    AfterOk(job, s, choices);
    ReadNow(job.s0.results, seen.results, c.result);
    NoteOk(job, AfterOthers(job.w, s), choices, Assessed(c.ordinal, c.result, Get(seen.results, c.result)));
    AfterFollows(job.w, s);
    GrownTransitive(found, s.results, seen.results);
    if Corresponds(job.w, seen, call.wanted, c.result) {
      var asked := Consult(seen, job.policy, c);
      NoteOk(job, seen, choices,
          Consulted(c.ordinal, c.result, seen.results[c.result], job.policy(c.ordinal, c.result)));
      if job.policy(c.ordinal, c.result) { PublishOk(job, found, asked, choices, c); }
    }
  }

  /** Publishing what was just accepted: a commit under the candidate's version finds the facts the policy saw. */
  lemma PublishOk(job: Job, found: Table, s: State,
                  choices: seq<Option<Selection>>, c: Candidate)
    requires Honest(job.w) && Ok(job, s, choices) && c.ordinal < |job.calls| && choices[c.ordinal].None?
    requires c.result in found && c.version == found[c.result].version && Grown(found, s.results) &&
        c.result in s.results
    requires |s.log| > |job.s0.log| && s.log[|s.log| - 1] == Consulted(c.ordinal, c.result, s.results[c.result], true)
    ensures var selection := SelectionFor(job.w, job.calls[c.ordinal], c.result);
      var t := AfterPublish(job.w, AfterOthers(job.w, s), selection, job.calls[c.ordinal].wanted, c.version);
      && Ok(job, t, if Holds(t, selection) then choices[c.ordinal := Some(selection)] else choices)
      && Grown(found, t.results)
  {
    var selection, before := SelectionFor(job.w, job.calls[c.ordinal], c.result), AfterOthers(job.w, s);
    AfterOk(job, s, choices);
    AfterFollows(job.w, s);
    GrownTransitive(found, s.results, before.results);
    if Checked(job.w, before, selection, job.calls[c.ordinal].wanted, c.version) {
      var later := AfterOthers(job.w, before);
      AfterOk(job, before, choices);
      AfterFollows(job.w, before);
      GrownTransitive(s.results, before.results, later.results);
      GrownTransitive(found, before.results, later.results);
      if Current(later, c.result, c.version) { SameVersionSameFacts(found, s.results, later.results, c.result); }
      CommitOk(job, later, choices, c.ordinal, selection, c.version, s.results[c.result]);
    }
  }

  // ----- why a slot stays open -----

  /** The identity the selection would take is another selection's. */
  predicate Taken(s: State, selection: Selection) {
    selection.id in s.selections && s.selections[selection.id] != selection
  }

  /** The assessment at `k` of the candidate, and what came of it: it did not correspond; or the policy, asked at
      once with the same facts, refused it; or its identity is taken; or it is no longer current under the version it
      was found with. */
  ghost predicate DeclinedAt(job: Job, s: State, c: Candidate, k: nat)
    requires c.ordinal < |job.calls|
  {
    && |job.s0.log| <= k < |s.log| && s.log[k].Assessed? && s.log[k].ordinal == c.ordinal && s.log[k].result == c.result
    && var call, read := job.calls[c.ordinal], s.log[k].read;
       || read.None? || job.w.assess(c.result, read.value.evidence) != call.wanted
       || (&& k + 1 < |s.log| &&
           s.log[k + 1] == Consulted(c.ordinal, c.result, read.value, job.policy(c.ordinal, c.result))
           && (job.policy(c.ordinal, c.result) ==>
                 Taken(s, SelectionFor(job.w, call, c.result)) || !Current(s, c.result, c.version)))
  }

  ghost predicate Declined(job: Job, s: State, c: Candidate)
    requires c.ordinal < |job.calls|
  {
    exists k :: DeclinedAt(job, s, c, k)
  }

  /** The candidate was current when it was found. */
  ghost predicate FoundAs(found: Table, c: Candidate) {
    c.result in found && found[c.result].available && found[c.result].version == c.version
  }

  /** What is no longer current never is again under that version. */
  lemma StaleStays(found: Table, s: State, t: State, c: Candidate)
    requires FoundAs(found, c) && Grown(found, s.results) && Grown(s.results, t.results) &&
        !Current(s, c.result, c.version)
    ensures !Current(t, c.result, c.version)
  {
    assert FactsGrown(found[c.result], s.results[c.result]) && FactsGrown(s.results[c.result], t.results[c.result]);
  }

  lemma DeclinedStays(job: Job, found: Table, s: State, t: State, c: Candidate)
    requires c.ordinal < |job.calls| && Declined(job, s, c) && Follows(s, t) && FoundAs(found, c) &&
        Grown(found, s.results)
    ensures Declined(job, t, c)
  {
    var k :| DeclinedAt(job, s, c, k);
    assert forall j :: 0 <= j < |s.log| ==> t.log[j] == s.log[j];
    if !Current(s, c.result, c.version) { StaleStays(found, s, t, c); }
    assert DeclinedAt(job, t, c, k);
  }

  /** A candidate that leaves its slot open was declined. */
  lemma TryDeclines(job: Job, found: Table, s: State, choices: seq<Option<Selection>>, c: Candidate)
    requires Honest(job.w) && c.ordinal < |job.calls| == |choices| && choices[c.ordinal].None? &&
        |job.s0.log| <= |s.log|
    requires FoundAs(found, c) && Grown(found, s.results) && job.calls[c.ordinal].wanted.Some?
    requires Answer(job.w, s, job.calls, job.policy, c, choices)[c.ordinal].None?
    ensures Declined(job, AfterTry(job.w, s, job.calls, job.policy, c), c)
  {
    var call, seen := job.calls[c.ordinal], Assess(job.w, s, c);
    var t := AfterTry(job.w, s, job.calls, job.policy, c);
    AfterFollows(job.w, s);
    GrownTransitive(found, s.results, seen.results);
    assert seen.log[|s.log|] == Assessed(c.ordinal, c.result, Get(seen.results, c.result));
    if Corresponds(job.w, seen, call.wanted, c.result) && job.policy(c.ordinal, c.result) {
      var asked := Consult(seen, job.policy, c);
      PublishDeclines(job.w, found, asked, call, c);
      PublishFollows(job.w, AfterOthers(job.w, asked), SelectionFor(job.w, call, c.result), call.wanted, c.version);
      assert AfterOthers(job.w, asked).log == asked.log;
      assert asked.log <= t.log;
      assert t.log[|s.log|] == asked.log[|s.log|] && t.log[|s.log| + 1] == asked.log[|s.log| + 1];
    }
    assert DeclinedAt(job, t, c, |s.log|);
  }

  lemma PublishFollows(w: World, s: State, selection: Selection, wanted: Option<Digest>, version: nat)
    ensures s.log <= AfterPublish(w, s, selection, wanted, version).log
  {
  }

  /** A publication that does not end with its selection found the identity taken or the version gone. */
  lemma PublishDeclines(w: World, found: Table, s: State, call: Call, c: Candidate)
    requires Honest(w) && FoundAs(found, c) && Grown(found, s.results) && Corresponds(w, s, call.wanted, c.result)
    ensures var selection := SelectionFor(w, call, c.result);
      var t := AfterPublish(w, AfterOthers(w, s), selection, call.wanted, c.version);
      Holds(t, selection) || Taken(t, selection) || !Current(t, c.result, c.version)
  {
    var selection, before := SelectionFor(w, call, c.result), AfterOthers(w, s);
    AfterFollows(w, s);
    AfterFollows(w, before);
    GrownTransitive(found, s.results, before.results);
    if Current(before, c.result, c.version) { SameVersionSameFacts(found, s.results, before.results, c.result); }
  }

  // ----- the whole call -----

  /** A prior choice names this very request, definition, target and labels, and its result is still available; any
      other selection under the identity is refused. */
  predicate PriorOk(s: State, call: Call) {
    call.selectionId in s.selections ==>
      var p := s.selections[call.selectionId];
      && p.request == call.request && p.definition == call.definition && p.target == call.target
      && (call.labels.Some? ==> p.labels == call.labels.value)
      && p.result in s.results && s.results[p.result].available
  }

  function Priors(s: State, calls: seq<Call>): seq<Option<Selection>> {
    seq(|calls|, i requires 0 <= i < |calls| => Get(s.selections, calls[i].selectionId))
  }

  /** The calls still to be answered keep what they want; the others no longer join candidates. */
  function Asked(calls: seq<Call>, choices: seq<Option<Selection>>): (r: seq<Call>)
    requires |choices| == |calls|
    ensures |r| == |calls|
  {
    seq(|calls|, i requires 0 <= i < |calls| => if choices[i].None? then calls[i] else calls[i].(wanted := None))
  }

  /** Every candidate in turn, for the calls still unanswered when it comes. */
  function Join(w: World, s: State, calls: seq<Call>, policy: Policy, start: seq<Option<Selection>>,
      candidates: seq<Candidate>)
    : (r: (State, seq<Option<Selection>>))
    requires |start| == |calls| && forall c :: c in candidates ==> c.ordinal < |calls|
    ensures |r.1| == |calls|
    decreases |candidates|
  {
    if candidates == [] then (s, start)
    else
      var n := |candidates| - 1;
      var (t, choices) := Join(w, s, calls, policy, start, candidates[..n]);
      JoinOne(w, t, calls, policy, choices, candidates[n])
  }

  function JoinOne(w: World, s: State, calls: seq<Call>, policy: Policy, choices: seq<Option<Selection>>, c: Candidate)
    : (r: (State, seq<Option<Selection>>))
    requires c.ordinal < |calls| == |choices|
    ensures |r.1| == |calls|
  {
    if choices[c.ordinal].Some? then (s, choices)
    else (AfterTry(w, s, calls, policy, c), Answer(w, s, calls, policy, c, choices))
  }

  /** The candidates joined for the calls without a prior choice. */
  function Candidates(w: World, s: State, calls: seq<Call>): seq<Candidate> {
    FindCandidates(Asked(calls, Priors(s, calls)), w, AfterOthers(w, s).results, 0)
  }

  /** The candidates joined are exactly the indexed results of the calls without a prior choice. */
  lemma CandidatesAre(w: World, s: State, calls: seq<Call>, c: Candidate)
    ensures c in Candidates(w, s, calls) <==>
      && c.ordinal < |calls| && calls[c.ordinal].selectionId !in s.selections
      && Indexed(calls[c.ordinal].wanted, w.index, w.order, AfterOthers(w, s).results, c.result)
      && c.version == AfterOthers(w, s).results[c.result].version
  {
    CandidatesMean(Asked(calls, Priors(s, calls)), w, AfterOthers(w, s).results, 0, c);
  }

  /** `choose_many`: prior choices first, then one candidate for each other call. */
  function Chosen(w: World, s: State, calls: seq<Call>, policy: Policy): (r: (State, seq<Option<Selection>>))
    ensures |r.1| == |calls|
  {
    assert forall c :: c in Candidates(w, s, calls) ==> c.ordinal < |calls| by {
      forall c | c in Candidates(w, s, calls) ensures c.ordinal < |calls| { CandidatesAre(w, s, calls, c); }
    }
    Join(w, AfterOthers(w, s), calls, policy, Priors(s, calls), Candidates(w, s, calls))
  }

  lemma StartOk(job: Job)
    requires Honest(job.w) && |job.start| == |job.calls|
    ensures Ok(job, AfterOthers(job.w, job.s0), job.start)
  {
    AfterFollows(job.w, job.s0);
  }

  lemma {:induction false} JoinOk(job: Job, found: Table, s: State, candidates: seq<Candidate>)
    requires Honest(job.w) && Ok(job, s, job.start) && Grown(found, s.results) && |job.start| == |job.calls|
    requires forall c :: c in candidates ==> c.ordinal < |job.calls| && Tryable(job, found, c)
    ensures var (t, choices) := Join(job.w, s, job.calls, job.policy, job.start, candidates);
      Ok(job, t, choices) && Grown(found, t.results) && AllDeclined(job, t, choices, candidates)
    decreases |candidates|
  {
    if candidates != [] {
      var n := |candidates| - 1;
      JoinOk(job, found, s, candidates[..n]);
      var (t, choices) := Join(job.w, s, job.calls, job.policy, job.start, candidates[..n]);
      JoinOneOk(job, found, t, choices, candidates[..n], candidates[n]);
      assert candidates[..n] + [candidates[n]] == candidates;
    }
  }

  /** A candidate of an open call, as it was found. */
  ghost predicate Tryable(job: Job, found: Table, c: Candidate) {
    c.ordinal < |job.calls| && FoundAs(found, c) && job.calls[c.ordinal].wanted.Some?
  }

  /** Every candidate whose slot is open was declined. */
  ghost predicate AllDeclined(job: Job, s: State, choices: seq<Option<Selection>>, tried: seq<Candidate>) {
    forall c :: c in tried && c.ordinal < |choices| && c.ordinal < |job.calls| && choices[c.ordinal].None? ==>
        Declined(job, s, c)
  }

  lemma AllDeclinedStay(job: Job, found: Table, s: State, t: State, choices: seq<Option<Selection>>,
      tried: seq<Candidate>)
    requires AllDeclined(job, s, choices, tried) && Follows(s, t) && Grown(found, s.results)
    requires forall c :: c in tried ==> Tryable(job, found, c)
    ensures AllDeclined(job, t, choices, tried)
  {
    forall c | c in tried && c.ordinal < |choices| && c.ordinal < |job.calls| && choices[c.ordinal].None?
        ensures Declined(job, t, c) {
      DeclinedStays(job, found, s, t, c);
    }
  }

  lemma AllDeclinedMore(job: Job, s: State, choices: seq<Option<Selection>>, more: seq<Option<Selection>>,
      tried: seq<Candidate>, c: Candidate)
    requires AllDeclined(job, s, choices, tried) && |more| == |choices| && c.ordinal < |job.calls|
    requires forall i :: 0 <= i < |choices| && more[i].None? ==> choices[i].None?
    requires c.ordinal < |more| && more[c.ordinal].None? ==> Declined(job, s, c)
    ensures AllDeclined(job, s, more, tried + [c])
  {
  }

  lemma JoinOneOk(job: Job, found: Table, s: State, choices: seq<Option<Selection>>, tried: seq<Candidate>,
      c: Candidate)
    requires Honest(job.w) && Ok(job, s, choices) && Grown(found, s.results) && Tryable(job, found, c)
    requires (forall x :: x in tried ==> Tryable(job, found, x)) && AllDeclined(job, s, choices, tried)
    ensures var (t, more) := JoinOne(job.w, s, job.calls, job.policy, choices, c);
      Ok(job, t, more) && Grown(found, t.results) && AllDeclined(job, t, more, tried + [c])
  {
    if choices[c.ordinal].None? {
      var t, more := AfterTry(job.w, s, job.calls, job.policy, c), Answer(job.w, s, job.calls, job.policy, c, choices);
      TryOk(job, found, s, choices, c);
      TryFollows(job.w, s, job.calls, job.policy, c);
      if more[c.ordinal].None? { TryDeclines(job, found, s, choices, c); }
      AllDeclinedStay(job, found, s, t, choices, tried);
      AllDeclinedMore(job, t, choices, more, tried, c);
    }
  }

  lemma TryFollows(w: World, s: State, calls: seq<Call>, policy: Policy, c: Candidate)
    requires Honest(w) && c.ordinal < |calls|
    ensures Follows(s, AfterTry(w, s, calls, policy, c))
  {
    var call, seen := calls[c.ordinal], Assess(w, s, c);
    AfterFollows(w, s);
    FollowsNote(s, AfterOthers(w, s), Assessed(c.ordinal, c.result, Get(seen.results, c.result)));
    if Corresponds(w, seen, call.wanted, c.result) {
      var asked, selection := Consult(seen, policy, c), SelectionFor(w, call, c.result);
      FollowsNote(s, seen, Consulted(c.ordinal, c.result, seen.results[c.result], policy(c.ordinal, c.result)));
      AfterFollows(w, asked);
      FollowsTransitive(s, asked, AfterOthers(w, asked));
      AfterFollows(w, AfterOthers(w, asked));
      FollowsTransitive(s, AfterOthers(w, asked), AfterOthers(w, AfterOthers(w, asked)));
      FollowsCommit(s, AfterOthers(w, AfterOthers(w, asked)), selection, c.version);
    }
  }

  lemma FollowsNote(s: State, t: State, e: Event)
    requires Follows(s, t)
    ensures Follows(s, Note(t, e))
  {
    assert (t.log + [e])[..|s.log|] == t.log[..|s.log|];
  }

  lemma FollowsCommit(s: State, t: State, selection: Selection, version: nat)
    requires Follows(s, t)
    ensures Follows(s, AfterCommit(t, selection, version))
  {
    if selection.id !in t.selections && Current(t, selection.result, version) {
      var u := AfterCommit(t, selection, version);
      assert u.log[..|t.log|] == t.log;
      CommitFollows(t, u, selection);
      FollowsTransitive(s, t, u);
    }
  }

  function JobOf(w: World, s: State, calls: seq<Call>, policy: Policy): Job {
    Job(w, calls, policy, s, Priors(s, calls))
  }

  lemma ChosenOk(w: World, s: State, calls: seq<Call>, policy: Policy)
    requires Honest(w)
    ensures var (t, choices) := Chosen(w, s, calls, policy);
      Ok(JobOf(w, s, calls, policy), t, choices) &&
          AllDeclined(JobOf(w, s, calls, policy), t, choices, Candidates(w, s, calls))
  {
    var job, before := JobOf(w, s, calls, policy), AfterOthers(w, s);
    StartOk(job);
    forall c | c in Candidates(w, s, calls) ensures Tryable(job, before.results, c) { CandidatesAre(w, s, calls, c); }
    JoinOk(job, before.results, before, Candidates(w, s, calls));
  }

  /** The association says what was asked: this identity, request, definition and target, and the call's labels, or
      else the result's own. */
  predicate RecordsCall(w: World, call: Call, p: Selection) {
    && p.id == call.selectionId && p.request == call.request && p.definition == call.definition
    && p.target == call.target
    && (call.labels.Some? ==> p.labels == call.labels.value) && (call.labels.None? ==> p.labels == w.labels(p.result))
  }

  /** Every association added: the call's policy had just accepted, and the result meant what the call wants, under the
      very facts the commit saw, which are those of the version it was prepared under; and it is that call's choice. */
  lemma AssociationsJustified(w: World, s: State, calls: seq<Call>, policy: Policy, k: nat)
    requires Honest(w)
    requires var t := Chosen(w, s, calls, policy).0; |s.log| <= k < |t.log| && t.log[k].Committed?
    ensures var (t, choices) := Chosen(w, s, calls, policy);
      var Committed(selection, version, facts) := t.log[k];
      && k > |s.log| && t.log[k - 1].Consulted? && t.log[k - 1].ordinal < |calls|
      && var o := t.log[k - 1].ordinal;
         && t.log[k - 1] == Consulted(o, selection.result, facts, true) && policy(o, selection.result)
         && calls[o].wanted.Some? && w.assess(selection.result, facts.evidence) == calls[o].wanted
         && facts.available && facts.version == version
         && RecordsCall(w, calls[o], selection)
         && choices[o] == Some(selection) && selection.id !in s.selections && Holds(t, selection)
  {
    ChosenOk(w, s, calls, policy);
    var (t, choices) := Chosen(w, s, calls, policy);
    var job := JobOf(w, s, calls, policy);
    assert EventOk(job, t.log, k) && Fills(t.log, choices, k);
    assert EventOk(job, t.log, k - 1);
  }

  /** At most one association for a call. */
  lemma OneAssociationEach(w: World, s: State, calls: seq<Call>, policy: Policy, j: nat, k: nat)
    requires Honest(w) && |s.log| <= j < k
    requires var t := Chosen(w, s, calls, policy).0; k < |t.log| && t.log[j].Committed? && t.log[k].Committed?
    ensures var t := Chosen(w, s, calls, policy).0;
      && j > 0 && t.log[j - 1].Consulted? && t.log[k - 1].Consulted? && t.log[j - 1].ordinal != t.log[k - 1].ordinal
      && t.log[j].selection.id != t.log[k].selection.id
  {
    ChosenOk(w, s, calls, policy);
    var (t, choices) := Chosen(w, s, calls, policy);
    assert Fills(t.log, choices, j) && Fills(t.log, choices, k);
  }

  /** Every new choice is an association this call added, or the same selection put there by another writer. */
  lemma ChoicesTraced(w: World, s: State, calls: seq<Call>, policy: Policy, i: nat)
    requires Honest(w) && i < |calls| && calls[i].selectionId !in s.selections && Chosen(w, s, calls, policy).1[i].Some?
    ensures var (t, choices) := Chosen(w, s, calls, policy);
      && RecordsCall(w, calls[i], choices[i].value) && Holds(t, choices[i].value)
      && (CommittedIn(t.log, |s.log|, choices[i].value) || Get(t.theirs, calls[i].selectionId) == choices[i])
  {
    ChosenOk(w, s, calls, policy);
    var (t, choices) := Chosen(w, s, calls, policy);
    assert Traced(s.selections, t, |s.log|) && choices[i].value.id == calls[i].selectionId;
  }

  /** A choice is a prior choice for every later call: made again while the result is available, the call is not
      refused, and is given exactly this choice back. */
  lemma ChoiceComesBack(w: World, s: State, calls: seq<Call>, policy: Policy, i: nat)
    requires Honest(w) && i < |calls| && PriorOk(s, calls[i]) && Chosen(w, s, calls, policy).1[i].Some?
    requires var (t, choices) := Chosen(w, s, calls, policy);
      choices[i].value.result in t.results && t.results[choices[i].value.result].available
    ensures var (t, choices) := Chosen(w, s, calls, policy);
      PriorOk(t, calls[i]) && Priors(t, calls)[i] == choices[i]
  {
    ChosenOk(w, s, calls, policy);
    var (t, choices) := Chosen(w, s, calls, policy);
    if calls[i].selectionId in s.selections {
      PriorsStand(w, s, calls, policy, i);
    } else {
      ChoicesTraced(w, s, calls, policy, i);
    }
  }

  /** A prior choice stands as it is: nothing of it is assessed, and no policy is asked. */
  lemma PriorsStand(w: World, s: State, calls: seq<Call>, policy: Policy, i: nat)
    requires Honest(w) && i < |calls| && calls[i].selectionId in s.selections
    ensures var (t, choices) := Chosen(w, s, calls, policy);
      && choices[i] == Some(s.selections[calls[i].selectionId])
      && forall k :: |s.log| <= k < |t.log| && !t.log[k].Committed? ==> t.log[k].ordinal != i
  {
    ChosenOk(w, s, calls, policy);
    var t, job := Chosen(w, s, calls, policy).0, JobOf(w, s, calls, policy);
    forall k | |s.log| <= k < |t.log| && !t.log[k].Committed? ensures t.log[k].ordinal != i {
      assert EventOk(job, t.log, k);
    }
  }

  /** A call is left without a choice only when each of its candidates was declined: it did not correspond, the policy
      refused it, its identity is taken, or its version is gone. */
  lemma OpenSlotsDeclined(w: World, s: State, calls: seq<Call>, policy: Policy, i: nat, x: ResultId)
    requires Honest(w) && i < |calls| && Chosen(w, s, calls, policy).1[i].None?
    requires Indexed(calls[i].wanted, w.index, w.order, AfterOthers(w, s).results, x)
    ensures Declined(JobOf(w, s, calls, policy), Chosen(w, s, calls, policy).0,
        Candidate(i, x, AfterOthers(w, s).results[x].version))
  {
    ChosenOk(w, s, calls, policy);
    CandidatesAre(w, s, calls, Candidate(i, x, AfterOthers(w, s).results[x].version));
  }

  // ----- the first candidate that is not declined -----

  /** The slot was filled by the candidate at `n`, and every earlier candidate of the call was declined. */
  ghost predicate FilledAt(job: Job, s: State, choices: seq<Option<Selection>>, tried: seq<Candidate>, i: nat, n: nat) {
    && n < |tried| && i < |choices| && i < |job.calls| && choices[i].Some?
    && tried[n].ordinal == i && tried[n].result == choices[i].value.result
    && forall m :: 0 <= m < n && tried[m].ordinal == i ==> Declined(job, s, tried[m])
  }

  ghost predicate FirstFills(job: Job, s: State, choices: seq<Option<Selection>>, tried: seq<Candidate>)
    requires |job.start| == |job.calls| == |choices|
  {
    forall i :: 0 <= i < |choices| && job.start[i].None? && choices[i].Some? ==>
      exists n :: FilledAt(job, s, choices, tried, i, n)
  }

  lemma FilledStays(job: Job, found: Table, s: State, t: State, choices: seq<Option<Selection>>,
      more: seq<Option<Selection>>, tried: seq<Candidate>, c: Candidate, i: nat, n: nat)
    requires FilledAt(job, s, choices, tried, i, n) && Follows(s, t) && Grown(found, s.results)
    requires i < |more| && more[i] == choices[i] && forall x :: x in tried ==> Tryable(job, found, x)
    ensures FilledAt(job, t, more, tried + [c], i, n)
  {
    forall m | 0 <= m < n && (tried + [c])[m].ordinal == i ensures Declined(job, t, (tried + [c])[m]) {
      assert tried[m] in tried;
      DeclinedStays(job, found, s, t, tried[m]);
    }
  }

  lemma FirstFillsOne(job: Job, found: Table, s: State, choices: seq<Option<Selection>>, tried: seq<Candidate>,
      c: Candidate)
    requires Honest(job.w) && Ok(job, s, choices) && Grown(found, s.results) && Tryable(job, found, c)
    requires (forall x :: x in tried ==> Tryable(job, found, x)) && AllDeclined(job, s, choices, tried)
    requires FirstFills(job, s, choices, tried)
    ensures var (t, more) := JoinOne(job.w, s, job.calls, job.policy, choices, c);
      |more| == |job.calls| && FirstFills(job, t, more, tried + [c])
  {
    var (t, more) := JoinOne(job.w, s, job.calls, job.policy, choices, c);
    assert Follows(s, t) by {
      if choices[c.ordinal].None? { TryFollows(job.w, s, job.calls, job.policy, c); } else { FollowsSelf(s); }
    }
    forall i | 0 <= i < |more| && job.start[i].None? && more[i].Some?
      ensures exists n :: FilledAt(job, t, more, tried + [c], i, n)
    {
      if choices[i].Some? {
        var n :| FilledAt(job, s, choices, tried, i, n);
        FilledStays(job, found, s, t, choices, more, tried, c, i, n);
      } else {
        forall m | 0 <= m < |tried| && tried[m].ordinal == i ensures Declined(job, t, tried[m]) {
          assert tried[m] in tried;
          DeclinedStays(job, found, s, t, tried[m]);
        }
        assert FilledAt(job, t, more, tried + [c], i, |tried|);
      }
    }
  }

  lemma FollowsSelf(s: State)
    ensures Follows(s, s)
  {
    assert s.log[..|s.log|] == s.log;
  }

  lemma {:induction false} JoinFirst(job: Job, found: Table, s: State, candidates: seq<Candidate>)
    requires Honest(job.w) && Ok(job, s, job.start) && Grown(found, s.results) && |job.start| == |job.calls|
    requires forall c :: c in candidates ==> c.ordinal < |job.calls| && Tryable(job, found, c)
    ensures var (t, choices) := Join(job.w, s, job.calls, job.policy, job.start, candidates);
      FirstFills(job, t, choices, candidates)
    decreases |candidates|
  {
    if candidates != [] {
      var n := |candidates| - 1;
      JoinFirst(job, found, s, candidates[..n]);
      JoinOk(job, found, s, candidates[..n]);
      var (t, choices) := Join(job.w, s, job.calls, job.policy, job.start, candidates[..n]);
      FirstFillsOne(job, found, t, choices, candidates[..n], candidates[n]);
      assert candidates[..n] + [candidates[n]] == candidates;
    }
  }

  /** `y` comes before `x` in the order in which results are listed. */
  predicate Earlier(order: seq<ResultId>, y: ResultId, x: ResultId) {
    exists p, q :: 0 <= p < q < |order| && order[p] == y && order[q] == x
  }

  predicate Listed(order: seq<ResultId>) { forall p, q :: 0 <= p < q < |order| ==> order[p] != order[q] }

  predicate InOrder(order: seq<ResultId>, m: seq<Candidate>) {
    forall a, b :: 0 <= a < b < |m| ==> Earlier(order, m[a].result, m[b].result)
  }

  lemma {:induction false} MatchesInOrder(wanted: Option<Digest>, index: map<ResultId, set<Digest>>,
      order: seq<ResultId>, results: Table, ordinal: nat)
    ensures InOrder(order, Matches(wanted, index, order, results, ordinal))
    decreases |order|
  {
    if order != [] {
      var rest := Matches(wanted, index, order[1..], results, ordinal);
      MatchesInOrder(wanted, index, order[1..], results, ordinal);
      assert forall c :: c in rest ==> c.result in order[1..];
      var version := if order[0] in results then results[order[0]].version else 0;
      OrderGrows(order, rest, Candidate(ordinal, order[0], version));
    }
  }

  lemma OrderGrows(order: seq<ResultId>, rest: seq<Candidate>, c: Candidate)
    requires order != [] && c.result == order[0] && InOrder(order[1..], rest)
    requires forall x :: x in rest ==> x.result in order[1..]
    ensures InOrder(order, rest) && InOrder(order, [c] + rest)
  {
    forall a, b | 0 <= a < b < |rest| ensures Earlier(order, rest[a].result, rest[b].result) {
      EarlierLater(order, rest[a].result, rest[b].result);
    }
    forall b | 0 <= b < |rest| ensures Earlier(order, c.result, rest[b].result) {
      assert rest[b] in rest;
      FirstIsEarlier(order, rest[b].result);
    }
  }

  lemma FirstIsEarlier(order: seq<ResultId>, x: ResultId)
    requires order != [] && x in order[1..]
    ensures Earlier(order, order[0], x)
  {
    var q :| 0 <= q < |order[1..]| && order[1..][q] == x;
    assert order[q + 1] == x;
  }

  lemma EarlierLater(order: seq<ResultId>, y: ResultId, x: ResultId)
    requires order != [] && Earlier(order[1..], y, x)
    ensures Earlier(order, y, x)
  {
    var p, q :| 0 <= p < q < |order[1..]| && order[1..][p] == y && order[1..][q] == x;
    assert order[p + 1] == y && order[q + 1] == x;
  }

  lemma {:induction false} CandidatesInOrder(calls: seq<Call>, w: World, results: Table, ordinal: nat, a: nat, b: nat)
    requires ordinal <= |calls| && a < b < |FindCandidates(calls, w, results, ordinal)|
    requires var l := FindCandidates(calls, w, results, ordinal); l[a].ordinal == l[b].ordinal
    ensures var l := FindCandidates(calls, w, results, ordinal); Earlier(w.order, l[a].result, l[b].result)
    decreases |calls| - ordinal
  {
    var head, rest := Matches(calls[ordinal].wanted, w.index, w.order, results, ordinal),
        FindCandidates(calls, w, results, ordinal + 1);
    var l := FindCandidates(calls, w, results, ordinal);
    assert l == head + rest;
    if b < |head| {
      MatchesInOrder(calls[ordinal].wanted, w.index, w.order, results, ordinal);
    } else if a < |head| {
      assert head[a] in head && rest[b - |head|] in rest;
      CandidatesMean(calls, w, results, ordinal + 1, rest[b - |head|]);
      assert false;
    } else {
      CandidatesInOrder(calls, w, results, ordinal + 1, a - |head|, b - |head|);
    }
  }

  /** The choice is the first in the listing order: every candidate that is listed before the result chosen was
      declined. */
  lemma FirstIsChosen(w: World, s: State, calls: seq<Call>, policy: Policy, i: nat, y: ResultId)
    requires Honest(w) && Listed(w.order) && i < |calls| && calls[i].selectionId !in s.selections
    requires Chosen(w, s, calls, policy).1[i].Some? &&
        Earlier(w.order, y, Chosen(w, s, calls, policy).1[i].value.result)
    requires Indexed(calls[i].wanted, w.index, w.order, AfterOthers(w, s).results, y)
    ensures Declined(JobOf(w, s, calls, policy), Chosen(w, s, calls, policy).0,
        Candidate(i, y, AfterOthers(w, s).results[y].version))
  {
    var job, before, list := JobOf(w, s, calls, policy), AfterOthers(w, s), Candidates(w, s, calls);
    var (t, choices) := Chosen(w, s, calls, policy);
    StartOk(job);
    forall c | c in list ensures c.ordinal < |calls| && Tryable(job, before.results, c) {
      CandidatesAre(w, s, calls, c);
    }
    JoinFirst(job, before.results, before, list);
    var n: nat :| FilledAt(job, t, choices, list, i, n);
    var c := Candidate(i, y, before.results[y].version);
    CandidatesAre(w, s, calls, c);
    var m :| 0 <= m < |list| && list[m] == c;
    if m > n { CandidatesInOrder(Asked(calls, Priors(s, calls)), w, before.results, 0, n, m); }
    assert m < n;
  }

  predicate DistinctSelections(calls: seq<Call>) {
    forall i, j :: 0 <= i < j < |calls| ==> calls[i].selectionId != calls[j].selectionId
  }

  /** Nobody else changes the results or adds selections. */
  ghost predicate Undisturbed(s: State, t: State) { t.results == s.results && t.theirs == s.theirs }

  lemma AfterUndisturbed(w: World, s: State)
    requires Quiet(w)
    ensures Undisturbed(s, AfterOthers(w, s)) && AfterOthers(w, s).selections == s.selections
  {
    var joined := w.otherSelections(s.clock, s.selections);
    assert joined == s.selections;
    assert s.theirs + (map id | id in joined && id !in s.selections :: joined[id]) == s.theirs;
  }

  lemma TryUndisturbed(w: World, s: State, calls: seq<Call>, policy: Policy, c: Candidate)
    requires Quiet(w) && c.ordinal < |calls|
    ensures Undisturbed(s, AfterTry(w, s, calls, policy, c))
  {
    var seen := Assess(w, s, c);
    AfterUndisturbed(w, s);
    if Corresponds(w, seen, calls[c.ordinal].wanted, c.result) {
      var asked := Consult(seen, policy, c);
      AfterUndisturbed(w, asked);
      AfterUndisturbed(w, AfterOthers(w, asked));
    }
  }

  lemma {:induction false} JoinUndisturbed(w: World, s: State, calls: seq<Call>, policy: Policy,
      start: seq<Option<Selection>>, candidates: seq<Candidate>)
    requires Quiet(w) && |start| == |calls| && forall c :: c in candidates ==> c.ordinal < |calls|
    ensures Undisturbed(s, Join(w, s, calls, policy, start, candidates).0)
    decreases |candidates|
  {
    if candidates != [] {
      var n := |candidates| - 1;
      JoinUndisturbed(w, s, calls, policy, start, candidates[..n]);
      TryUndisturbed(w, Join(w, s, calls, policy, start, candidates[..n]).0, calls, policy, candidates[n]);
    }
  }

  lemma ChosenUndisturbed(w: World, s: State, calls: seq<Call>, policy: Policy)
    requires Quiet(w)
    ensures Undisturbed(s, Chosen(w, s, calls, policy).0)
  {
    AfterUndisturbed(w, s);
    forall c | c in Candidates(w, s, calls) ensures c.ordinal < |calls| { CandidatesAre(w, s, calls, c); }
    JoinUndisturbed(w, AfterOthers(w, s), calls, policy, Priors(s, calls), Candidates(w, s, calls));
  }

  /** What was added for other calls has other identities. */
  lemma AddedElsewhere(job: Job, log: seq<Event>, choices: seq<Option<Selection>>, i: nat, k: nat)
    requires |job.start| == |job.calls| == |choices| && EventsOk(job, log) && DistinctSelections(job.calls)
    requires i < |job.calls| && choices[i].None?
    requires |job.s0.log| <= k < |log| && log[k].Committed? && Fills(log, choices, k)
    ensures log[k].selection.id != job.calls[i].selectionId
  {
    assert EventOk(job, log, k);
  }

  /** The identity of an open call is free as long as no other writer takes it. */
  lemma NotTaken(job: Job, s: State, choices: seq<Option<Selection>>, i: nat)
    requires Ok(job, s, choices) && DistinctSelections(job.calls)
    requires s.theirs.Keys <= job.s0.selections.Keys && Keyed(job.s0.selections)
    requires i < |job.calls| && job.calls[i].selectionId !in job.s0.selections && choices[i].None?
    ensures job.calls[i].selectionId !in s.selections
  {
    var id := job.calls[i].selectionId;
    if id in s.selections {
      assert CommittedIn(s.log, |job.s0.log|, s.selections[id]);
      var k :| |job.s0.log| <= k < |s.log| && s.log[k].Committed? && s.log[k].selection == s.selections[id];
      AddedElsewhere(job, s.log, choices, i, k);
    }
  }

  /** A result that did not change was read as it is. */
  lemma ReadSame(table: Table, s: State, from: nat, k: nat)
    requires ReadsOk(table, s, from) && s.results == table && from <= k < |s.log| && s.log[k].Assessed? &&
        s.log[k].result in table
    ensures s.log[k].read == Some(table[s.log[k].result])
  {
    assert Between(table, s.log[k].result, s.log[k].read, s.results);
  }

  /** With nobody else at work, a call with a candidate that corresponds and passes the policy gets a choice. */
  lemma UndisturbedChooses(w: World, s: State, calls: seq<Call>, policy: Policy, i: nat, x: ResultId)
    requires Honest(w) && Quiet(w) && DistinctSelections(calls) && Keyed(s.selections) &&
        s.theirs.Keys <= s.selections.Keys
    requires i < |calls| && calls[i].selectionId !in s.selections &&
        Indexed(calls[i].wanted, w.index, w.order, s.results, x)
    requires w.assess(x, s.results[x].evidence) == calls[i].wanted && policy(i, x)
    ensures Chosen(w, s, calls, policy).1[i].Some?
  {
    var (t, choices) := Chosen(w, s, calls, policy);
    if choices[i].None? {
      var job, c := JobOf(w, s, calls, policy), Candidate(i, x, s.results[x].version);
      AfterUndisturbed(w, s);
      OpenSlotsDeclined(w, s, calls, policy, i, x);
      ChosenUndisturbed(w, s, calls, policy);
      var k: nat :| DeclinedAt(job, t, c, k);
      ChosenOk(w, s, calls, policy);
      ReadSame(s.results, t, |s.log|, k);
      NotTaken(job, t, choices, i);
    }
  }

  /** A choice made while nobody else is at work is of a result that is available. */
  lemma UndisturbedAvailable(w: World, s: State, calls: seq<Call>, policy: Policy, i: nat)
    requires Honest(w) && Quiet(w) && Keyed(s.selections) && s.theirs.Keys <= s.selections.Keys
    requires i < |calls| && PriorOk(s, calls[i]) && Chosen(w, s, calls, policy).1[i].Some?
    ensures var (t, choices) := Chosen(w, s, calls, policy);
      t.results == s.results && choices[i].value.result in s.results && s.results[choices[i].value.result].available
  {
    ChosenUndisturbed(w, s, calls, policy);
    var (t, choices) := Chosen(w, s, calls, policy);
    if calls[i].selectionId in s.selections {
      PriorsStand(w, s, calls, policy, i);
    } else {
      ChoicesTraced(w, s, calls, policy, i);
      assert CommittedIn(t.log, |s.log|, choices[i].value);
      var k :| |s.log| <= k < |t.log| && t.log[k].Committed? && t.log[k].selection == choices[i].value;
      CommittedFacts(w, s, calls, policy, k);
    }
  }

  /** What a commit saw of its result was read just before, so it stands unless someone changes it. */
  lemma CommittedFacts(w: World, s: State, calls: seq<Call>, policy: Policy, k: nat)
    requires Honest(w)
    requires var t := Chosen(w, s, calls, policy).0; |s.log| <= k < |t.log| && t.log[k].Committed?
    ensures var t := Chosen(w, s, calls, policy).0;
      t.log[k].facts.available && t.log[k].selection.result in t.results &&
          FactsGrown(t.log[k].facts, t.results[t.log[k].selection.result]) &&
          (t.log[k].selection.result in s.results ==>
             FactsGrown(s.results[t.log[k].selection.result], t.log[k].facts))
  {
    ChosenOk(w, s, calls, policy);
    var (t, choices) := Chosen(w, s, calls, policy);
    var job := JobOf(w, s, calls, policy);
    assert EventOk(job, t.log, k);
    assert EventOk(job, t.log, k - 1);
    assert t.log[k - 2].Assessed? && Between(s.results, t.log[k - 2].result, t.log[k - 2].read, t.results);
  }

  /** With nobody else at work, the same calls made again give the same choices, and none is refused. */
  lemma UndisturbedRepeats(w: World, s: State, calls: seq<Call>, policy: Policy)
    requires Honest(w) && Quiet(w) && DistinctSelections(calls) && Keyed(s.selections) &&
        s.theirs.Keys <= s.selections.Keys
    requires forall i :: 0 <= i < |calls| ==> PriorOk(s, calls[i])
    ensures var (t, choices) := Chosen(w, s, calls, policy);
      (forall i :: 0 <= i < |calls| ==> PriorOk(t, calls[i])) && Priors(t, calls) == choices
  {
    var (t, choices) := Chosen(w, s, calls, policy);
    forall i | 0 <= i < |calls| ensures PriorOk(t, calls[i]) && Priors(t, calls)[i] == choices[i] {
      if choices[i].Some? {
        UndisturbedAvailable(w, s, calls, policy, i);
        ChoiceComesBack(w, s, calls, policy, i);
      } else {
        ChosenOk(w, s, calls, policy);
        ChosenUndisturbed(w, s, calls, policy);
        NotTaken(JobOf(w, s, calls, policy), t, choices, i);
      }
    }
  }

  // ----- the code -----

  class Ledger {
    const w: World
    var s: State

    ghost predicate Valid() reads this { Honest(w) && Keyed(s.selections) && s.theirs.Keys <= s.selections.Keys }

    constructor (w: World, results: Table, selections: Selections)
      requires Honest(w) && Keyed(selections)
      ensures Valid() && this.w == w && s == State(results, selections, 0, [], map[])
    {
      this.w, s := w, State(results, selections, 0, [], map[]);
    }

    /** Whatever other writers do before this caller's next step. */
    method Others()
      requires Valid()
      modifies this
      ensures Valid() && s == AfterOthers(w, old(s)) && Follows(old(s), s)
    {
      AfterFollows(w, s);
      s := AfterOthers(w, s);
    }

    /** One atomic commit: refused when the identity holds another selection, or the version moved. */
    method Commit(selection: Selection, version: nat) returns (ok: bool)
      requires Valid()
      modifies this
      ensures Valid() && s == AfterCommit(old(s), selection, version) && (ok <==> Holds(s, selection))
    {
      if selection.id in s.selections { return s.selections[selection.id] == selection; }
      if !Current(s, selection.result, version) { return false; }
      s := Note(s.(selections := s.selections[selection.id := selection]),
          Committed(selection, version, s.results[selection.result]));
      ok := true;
    }

    /** `session.publish`: the publisher reads and checks correspondence again, then commits. */
    method Publish(selection: Selection, wanted: Option<Digest>, version: nat) returns (ok: bool)
      requires Valid()
      modifies this
      ensures Valid() && s == AfterPublish(w, old(s), selection, wanted, version) && (ok <==> Holds(s, selection))
      ensures s.log != old(s.log) ==>
        && s.log == old(s.log) + [Committed(selection, version, s.results[selection.result])]
        && selection.id !in old(s.selections) && Current(s, selection.result, version)
        && Corresponds(w, s, wanted, selection.result)
    {
      ok := false;
      if selection.id !in s.selections {
        if selection.result !in s.results || s.results[selection.result].version != version { return; }
        if !Corresponds(w, s, wanted, selection.result) { return; }
      }
      ghost var checked := s;
      Others();
      ok := Commit(selection, version);
      if s.log != checked.log { SameVersionSameFacts(checked.results, s.results, s.results, selection.result); }
    }
  }

  /** `existing_many`: recover the particular prior choices, never today's policy. */
  method ExistingMany(ledger: Ledger, calls: seq<Call>) returns (ok: bool, choices: seq<Option<Selection>>)
    ensures ok <==> forall i :: 0 <= i < |calls| ==> PriorOk(ledger.s, calls[i])
    ensures ok ==> choices == Priors(ledger.s, calls)
    ensures ok ==> forall i :: 0 <= i < |calls| && choices[i].Some? ==>
      var call, p := calls[i], choices[i].value;
      && p.request == call.request && p.definition == call.definition && p.target == call.target
      && (call.labels.Some? ==> p.labels == call.labels.value)
      && p.result in ledger.s.results && ledger.s.results[p.result].available
  {
    choices := [];
    for i := 0 to |calls|
      invariant |choices| == i
      invariant forall j :: 0 <= j < i ==>
          PriorOk(ledger.s, calls[j]) && choices[j] == Get(ledger.s.selections, calls[j].selectionId)
    {
      if !PriorOk(ledger.s, calls[i]) { ok := false; return; }
      choices := choices + [Get(ledger.s.selections, calls[i].selectionId)];
    }
    ok := true;
  }

  /** Ask the caller's policy about a result just read. */
  method AskPolicy(ledger: Ledger, policy: Policy, c: Candidate) returns (accepted: bool)
    requires ledger.Valid() && c.result in ledger.s.results
    modifies ledger
    ensures ledger.Valid() && ledger.s == Consult(old(ledger.s), policy, c) &&
        (accepted <==> policy(c.ordinal, c.result))
  {
    accepted := policy(c.ordinal, c.result);
    ledger.s := Note(ledger.s, Consulted(c.ordinal, c.result, ledger.s.results[c.result], accepted));
  }

  /** Publish an accepted candidate under the version it was found with. The slot is filled exactly when the ledger
      ends with this selection, whoever added it; a refused commit leaves it open. */
  method PublishChoice(ledger: Ledger, calls: seq<Call>, c: Candidate, choices: seq<Option<Selection>>)
    returns (choices': seq<Option<Selection>>)
    requires ledger.Valid() && c.ordinal < |calls| == |choices|
    modifies ledger
    ensures ledger.Valid()
    ensures var call := calls[c.ordinal];
      var selection := SelectionFor(ledger.w, call, c.result);
      && ledger.s == AfterPublish(ledger.w, AfterOthers(ledger.w, old(ledger.s)), selection, call.wanted, c.version)
      && choices' == if Holds(ledger.s, selection) then choices[c.ordinal := Some(selection)] else choices
  {
    var call := calls[c.ordinal];
    ledger.Others();
    var selection := SelectionFor(ledger.w, call, c.result);
    var ok := ledger.Publish(selection, call.wanted, c.version);
    choices' := if ok then choices[c.ordinal := Some(selection)] else choices;
  }

  /** One candidate: assess it afresh, consult the policy once, publish under the version it was found with. */
  method TryCandidate(ledger: Ledger, calls: seq<Call>, policy: Policy, c: Candidate, choices: seq<Option<Selection>>)
    returns (choices': seq<Option<Selection>>)
    requires ledger.Valid() && c.ordinal < |calls| == |choices|
    modifies ledger
    ensures ledger.Valid() && ledger.s == AfterTry(ledger.w, old(ledger.s), calls, policy, c)
    ensures choices' == Answer(ledger.w, old(ledger.s), calls, policy, c, choices)
  {
    choices' := choices;
    ledger.Others();
    ledger.s := Note(ledger.s, Assessed(c.ordinal, c.result, Get(ledger.s.results, c.result)));
    if !Corresponds(ledger.w, ledger.s, calls[c.ordinal].wanted, c.result) { return; }
    var accepted := AskPolicy(ledger, policy, c);
    if !accepted { return; }
    choices' := PublishChoice(ledger, calls, c, choices);
  }

  /** Every candidate in turn, for the calls still unanswered when it comes. */
  method JoinCandidates(ledger: Ledger, calls: seq<Call>, policy: Policy, candidates: seq<Candidate>,
      start: seq<Option<Selection>>)
    returns (choices: seq<Option<Selection>>)
    requires ledger.Valid() && |start| == |calls| && forall c :: c in candidates ==> c.ordinal < |calls|
    modifies ledger
    ensures ledger.Valid() && (ledger.s, choices) == Join(ledger.w, old(ledger.s), calls, policy, start, candidates)
  {
    choices := start;
    for k := 0 to |candidates|
      invariant ledger.Valid() &&
          (ledger.s, choices) == Join(ledger.w, old(ledger.s), calls, policy, start, candidates[..k])
    {
      var c := candidates[k];
      assert candidates[..k + 1][..k] == candidates[..k];
      if choices[c.ordinal].None? { choices := TryCandidate(ledger, calls, policy, c, choices); }
    }
    assert candidates[..|candidates|] == candidates;
  }

  /** `choose_many`: prior choices first, then one candidate per request, each published under its version. */
  method ChooseMany(ledger: Ledger, calls: seq<Call>, policy: Policy)
      returns (ok: bool, choices: seq<Option<Selection>>)
    requires ledger.Valid()
    modifies ledger
    ensures ledger.Valid() && (ok <==> forall i :: 0 <= i < |calls| ==> PriorOk(old(ledger.s), calls[i]))
    ensures ok ==> (ledger.s, choices) == Chosen(ledger.w, old(ledger.s), calls, policy)
    ensures ok ==> Ok(JobOf(ledger.w, old(ledger.s), calls, policy), ledger.s, choices)
    ensures ok ==> |choices| == |calls| && forall i :: 0 <= i < |calls| && choices[i].Some? ==>
        if calls[i].selectionId in old(ledger.s.selections)
        then choices[i].value == old(ledger.s.selections)[calls[i].selectionId]
        else RecordsCall(ledger.w, calls[i], choices[i].value) && Holds(ledger.s, choices[i].value)
    ensures !ok ==> ledger.s == old(ledger.s)
  {
    ok, choices := ExistingMany(ledger, calls);
    if !ok { return; }
    ChosenOk(ledger.w, ledger.s, calls, policy);
    ghost var before := ledger.s;
    var asked := Asked(calls, choices);
    ledger.Others();
    var candidates := FindCandidates(asked, ledger.w, ledger.s.results, 0);
    forall c | c in candidates ensures c.ordinal < |calls| { CandidatesAre(ledger.w, before, calls, c); }
    choices := JoinCandidates(ledger, calls, policy, candidates, choices);
  }
}
