/** Folding omission and supplement evidence into a result's declared dependencies. */
module DependencyFold {
  // Evidence is processed in the order it is read.  The fold is confluent where
  // it is accepted; whether it is accepted can depend on the order.

  import opened Prelude

  type Label = string
  type EvidenceId = string
  type ResultId = string

  datatype Scope = ResourceScope | DependencyScope

  datatype Resource = Resource(name: Label, established: bool, pin: string)
  datatype Dependency = Dependency(name: Label, binding: Label, selection: string)
  datatype Input = Input(name: Label, target: string)

  datatype Observation = Observation(result: ResultId, resource: Option<Resource>, dependency: Option<Dependency>,
      historical: Option<Input>)

  /** `receipts` says whether the supporting receipts establish the observation. */
  datatype Evidence =
    | Omission(id: EvidenceId, result: ResultId, supersedes: Option<EvidenceId>, scope: Scope, name: Label)
    | Supplement(id: EvidenceId, result: ResultId, supersedes: Option<EvidenceId>, receipts: bool,
        observation: Observation)

  datatype Correction = OfResource(resource: Resource) | OfDependency(dependency: Dependency)

  type Omissions = map<EvidenceId, (Scope, Label)>

  datatype State = State(
    resources: map<Label, Resource>,
    dependencies: map<Label, Dependency>,
    inputs: map<Label, Input>,
    corrections: map<(Scope, Label), Correction>,
    resolved: set<EvidenceId>)

  datatype Folded = Folded(resources: map<Label, Resource>, dependencies: map<Label, Dependency>,
      inputs: map<Label, Input>, unresolved: set<EvidenceId>)

  // ----- the reference definition -----

  predicate RecordOk(result: ResultId, e: Evidence) { e.result == result && (e.Omission? ==> e.supersedes.None?) }

  function OmissionsIn(evidence: seq<Evidence>): Omissions {
    if evidence == [] then map[]
    else var last := evidence[|evidence| - 1];
         var before := OmissionsIn(evidence[..|evidence| - 1]);
         if last.Omission? then before[last.id := (last.scope, last.name)] else before
  }

  function SupplementsIn(evidence: seq<Evidence>): (r: seq<Evidence>)
    ensures forall s :: s in r <==> s in evidence && s.Supplement?
  {
    if evidence == [] then []
    else
      SupplementsIn(evidence[..|evidence| - 1])
      + (if evidence[|evidence| - 1].Supplement? then [evidence[|evidence| - 1]] else [])
  }

  /** The value a supplement corrects its omission to, when its shape is right. */
  function CorrectionOf(omissions: Omissions, result: ResultId, s: Evidence): (r: Option<Correction>)
    ensures r.Some? ==> s.Supplement? && s.supersedes.Some? && s.supersedes.value in omissions
  {
    if s.Omission? then None else
    var o := s.observation;
    if s.supersedes.None? || s.supersedes.value !in omissions || o.result != result || !s.receipts then None
    else
      var (scope, name) := omissions[s.supersedes.value];
      if scope.ResourceScope? then
        if o.resource.Some? && o.dependency.None? && o.historical.None? && o.resource.value.name == name &&
            o.resource.value.established
        then Some(OfResource(o.resource.value)) else None
      else
        if o.dependency.Some? && o.resource.None? && o.dependency.value.name == name
           && (o.historical.Some? ==> o.historical.value.name == o.dependency.value.binding)
        then Some(OfDependency(o.dependency.value)) else None
  }

  function WithHistorical(inputs: map<Label, Input>, o: Observation): map<Label, Input> {
    if o.historical.Some? then inputs[o.historical.value.name := o.historical.value] else inputs
  }

  predicate InputsAgree(inputs: map<Label, Input>, o: Observation) {
    o.historical.Some? && o.historical.value.name in inputs ==> inputs[o.historical.value.name] == o.historical.value
  }

  /** One supplement: None where the source refuses. */
  function Step(omissions: Omissions, result: ResultId, st: State, s: Evidence): Option<State>
    requires s.Supplement?
  {
    match CorrectionOf(omissions, result, s)
    case None => None
    case Some(c) =>
      var key := omissions[s.supersedes.value];
      var inputs := WithHistorical(st.inputs, s.observation);
      if !InputsAgree(st.inputs, s.observation) || (c.OfDependency? && c.dependency.binding !in inputs)
         || (key in st.corrections && st.corrections[key] != c) then None
      else Some(State(
        if c.OfResource? then st.resources[key.1 := c.resource] else st.resources,
        if c.OfDependency? then st.dependencies[key.1 := c.dependency] else st.dependencies,
        inputs, st.corrections[key := c], st.resolved + {s.supersedes.value}))
  }

  function Steps(omissions: Omissions, result: ResultId, st: State, supplements: seq<Evidence>): Option<State>
    requires forall s :: s in supplements ==> s.Supplement?
  {
    if supplements == [] then Some(st)
    else match Steps(omissions, result, st, supplements[..|supplements| - 1])
         case None => None
         case Some(mid) => Step(omissions, result, mid, supplements[|supplements| - 1])
  }

  function Fold(original: State, result: ResultId, evidence: seq<Evidence>): Option<Folded> {
    if exists e :: e in evidence && !RecordOk(result, e) then None
    else match Steps(OmissionsIn(evidence), result, original, SupplementsIn(evidence))
         case None => None
         case Some(st) =>
             Some(Folded(st.resources, st.dependencies, st.inputs, OmissionsIn(evidence).Keys - st.resolved))
  }

  predicate Original(st: State) { st.corrections == map[] && st.resolved == {} }

  predicate DistinctIds(evidence: seq<Evidence>) {
    forall i, j :: 0 <= i < j < |evidence| ==> evidence[i].id != evidence[j].id
  }

  // ----- what an accepted fold means, without any order -----

  /** The supplement gives this correction to this key. */
  predicate Corrects(omissions: Omissions, result: ResultId, s: Evidence, key: (Scope, Label), c: Correction) {
    CorrectionOf(omissions, result, s) == Some(c) && omissions[s.supersedes.value] == key
  }

  predicate Supplies(s: Evidence, input: Input) { s.Supplement? && s.observation.historical == Some(input) }

  ghost predicate SomeCorrects(omissions: Omissions, result: ResultId, supplements: seq<Evidence>, key: (Scope, Label),
      c: Correction) {
    exists s :: s in supplements && Corrects(omissions, result, s, key, c)
  }

  ghost predicate SomeSupplies(supplements: seq<Evidence>, input: Input) {
    exists s :: s in supplements && Supplies(s, input)
  }

  /** The corrections are exactly those the supplements give, and every supplement gives one. */
  ghost predicate CorrectionsAre(omissions: Omissions, result: ResultId, supplements: seq<Evidence>,
      corrections: map<(Scope, Label), Correction>) {
    && (forall s :: s in supplements ==> CorrectionOf(omissions, result, s).Some?)
    && (forall key, c :: SomeCorrects(omissions, result, supplements, key, c) <==>
        key in corrections && corrections[key] == c)
  }

  /** Exactly the supplied inputs are added to the original ones. */
  ghost predicate InputsAre(original: map<Label, Input>, supplements: seq<Evidence>, inputs: map<Label, Input>) {
    && (forall l :: l in original ==> l in inputs && inputs[l] == original[l])
    && (forall l :: l in inputs && l !in original ==> inputs[l].name == l && SomeSupplies(supplements, inputs[l]))
    && (forall input :: SomeSupplies(supplements, input) ==> input.name in inputs && inputs[input.name] == input)
  }

  /** Corrected names hold their correction, every other its original. */
  ghost predicate ResourcesAre(original: map<Label, Resource>, corrections: map<(Scope, Label), Correction>,
      resources: map<Label, Resource>) {
    && (forall l :: l in resources <==> l in original || (ResourceScope, l) in corrections)
    && (forall l :: l in resources ==>
          if (ResourceScope, l) in corrections then corrections[(ResourceScope, l)] == OfResource(resources[l])
              else resources[l] == original[l])
  }

  ghost predicate DependenciesAre(original: map<Label, Dependency>, corrections: map<(Scope, Label), Correction>,
      dependencies: map<Label, Dependency>) {
    && (forall l :: l in dependencies <==> l in original || (DependencyScope, l) in corrections)
    && (forall l :: l in dependencies ==>
          if (DependencyScope, l) in corrections then corrections[(DependencyScope, l)] == OfDependency(dependencies[l])
          else dependencies[l] == original[l])
  }

  ghost predicate Describes(omissions: Omissions, result: ResultId, original: State, supplements: seq<Evidence>,
      st: State) {
    && CorrectionsAre(omissions, result, supplements, st.corrections)
    && InputsAre(original.inputs, supplements, st.inputs)
    && ResourcesAre(original.resources, st.corrections, st.resources)
    && DependenciesAre(original.dependencies, st.corrections, st.dependencies)
    && ResolvedAre(supplements, st.resolved)
  }

  lemma {:induction false} AcceptedDescribes(omissions: Omissions, result: ResultId, original: State,
      supplements: seq<Evidence>)
    requires Original(original) && forall s :: s in supplements ==> s.Supplement?
    requires Steps(omissions, result, original, supplements).Some?
    ensures Describes(omissions, result, original, supplements, Steps(omissions, result, original, supplements).value)
    decreases |supplements|
  {
    if supplements == [] {
      NothingDescribes(omissions, result, original);
    } else {
      var n := |supplements| - 1;
      var before, s := supplements[..n], supplements[n];
      assert supplements == before + [s];
      AcceptedDescribes(omissions, result, original, before);
      StepDescribes(omissions, result, original, before, Steps(omissions, result, original, before).value, s);
    }
  }

  lemma NothingDescribes(omissions: Omissions, result: ResultId, original: State)
    requires Original(original)
    ensures Describes(omissions, result, original, [], original)
  {
  }

  lemma StepDescribes(omissions: Omissions, result: ResultId, original: State, before: seq<Evidence>, mid: State,
      s: Evidence)
    requires Describes(omissions, result, original, before, mid) && s.Supplement? &&
        Step(omissions, result, mid, s).Some?
    ensures Describes(omissions, result, original, before + [s], Step(omissions, result, mid, s).value)
  {
    CorrectionsStep(omissions, result, before, mid.corrections, s);
    InputsStep(original.inputs, before, mid.inputs, s);
    NamesStep(original, mid, omissions[s.supersedes.value], CorrectionOf(omissions, result, s).value);
    ResolvedStep(before, mid.resolved, s);
  }

  lemma NamesStep(original: State, mid: State, key: (Scope, Label), c: Correction)
    requires ResourcesAre(original.resources, mid.corrections, mid.resources)
    requires DependenciesAre(original.dependencies, mid.corrections, mid.dependencies)
    requires c.OfResource? <==> key.0.ResourceScope?
    ensures ResourcesAre(original.resources, mid.corrections[key := c], if c.OfResource? then
        mid.resources[key.1 := c.resource] else mid.resources)
    ensures DependenciesAre(original.dependencies, mid.corrections[key := c],
                            if c.OfDependency? then mid.dependencies[key.1 := c.dependency] else mid.dependencies)
  {
  }

  ghost predicate ResolvedAre(supplements: seq<Evidence>, resolved: set<EvidenceId>) {
    forall id :: id in resolved <==> exists s :: s in supplements && s.supersedes == Some(id)
  }

  lemma ResolvedStep(before: seq<Evidence>, resolved: set<EvidenceId>, s: Evidence)
    requires ResolvedAre(before, resolved) && s.supersedes.Some?
    ensures ResolvedAre(before + [s], resolved + {s.supersedes.value})
  {
    assert s in before + [s];
    forall id | id in resolved ensures exists x :: x in before + [s] && x.supersedes == Some(id) {
      var x :| x in before && x.supersedes == Some(id);
      assert x in before + [s];
    }
  }

  lemma CorrectionsStep(omissions: Omissions, result: ResultId, before: seq<Evidence>,
      corrections: map<(Scope, Label), Correction>, s: Evidence)
    requires CorrectionsAre(omissions, result, before, corrections) && CorrectionOf(omissions, result, s).Some?
    requires var key := omissions[s.supersedes.value];
      key in corrections ==> Some(corrections[key]) == CorrectionOf(omissions, result, s)
    ensures CorrectionsAre(omissions, result, before + [s],
        corrections[omissions[s.supersedes.value] := CorrectionOf(omissions, result, s).value])
  {
    forall k, d ensures SomeCorrects(omissions, result, before + [s], k, d) <==>
      SomeCorrects(omissions, result, before, k, d) || Corrects(omissions, result, s, k, d)
    {
      if SomeCorrects(omissions, result, before, k, d) {
        var x :| x in before && Corrects(omissions, result, x, k, d);
        assert x in before + [s];
      }
      if Corrects(omissions, result, s, k, d) { assert s in before + [s]; }
    }
  }

  lemma InputsStep(original: map<Label, Input>, before: seq<Evidence>, inputs: map<Label, Input>, s: Evidence)
    requires InputsAre(original, before, inputs) && s.Supplement? && InputsAgree(inputs, s.observation)
    ensures InputsAre(original, before + [s], WithHistorical(inputs, s.observation))
  {
    var after := WithHistorical(inputs, s.observation);
    forall input ensures SomeSupplies(before + [s], input) <==> SomeSupplies(before, input) || Supplies(s, input) {
      if SomeSupplies(before, input) {
        var x :| x in before && Supplies(x, input);
        assert x in before + [s];
      }
      if Supplies(s, input) { assert s in before + [s]; }
    }
  }

  // ----- confluence -----

  ghost predicate SameEvidence(xs: seq<Evidence>, ys: seq<Evidence>) { forall e :: e in xs <==> e in ys }

  /** With distinct identities the omissions are a set of facts, not an order. */
  lemma {:induction false} OmissionsMean(evidence: seq<Evidence>, id: EvidenceId)
    requires DistinctIds(evidence)
    ensures id in OmissionsIn(evidence) <==> exists e :: e in evidence && e.Omission? && e.id == id
    ensures forall e :: e in evidence && e.Omission? && e.id == id ==> OmissionsIn(evidence)[id] == (e.scope, e.name)
    decreases |evidence|
  {
    if evidence != [] {
      var n := |evidence| - 1;
      var last := evidence[n];
      OmissionsMean(evidence[..n], id);
      assert evidence == evidence[..n] + [last];
      forall e | e in evidence && e.Omission? && e.id == id
          ensures id in OmissionsIn(evidence) && OmissionsIn(evidence)[id] == (e.scope, e.name) {
        var i :| 0 <= i < |evidence| && evidence[i] == e;
        if i < n { assert e in evidence[..n] && last.id != e.id; }
      }
    }
  }

  lemma SameOmissions(xs: seq<Evidence>, ys: seq<Evidence>)
    requires DistinctIds(xs) && DistinctIds(ys) && SameEvidence(xs, ys)
    ensures OmissionsIn(xs) == OmissionsIn(ys)
  {
    forall id ensures id in OmissionsIn(xs) <==> id in OmissionsIn(ys) {
      OmissionsMean(xs, id);
      OmissionsMean(ys, id);
    }
    forall id | id in OmissionsIn(xs) ensures OmissionsIn(xs)[id] == OmissionsIn(ys)[id] {
      OmissionsMean(xs, id);
      OmissionsMean(ys, id);
      var e :| e in xs && e.Omission? && e.id == id;
    }
  }

  /** The description leaves no choice. */
  lemma DescribedOnce(omissions: Omissions, result: ResultId, original: State, xs: seq<Evidence>, ys: seq<Evidence>,
      a: State, b: State)
    requires SameEvidence(xs, ys) && Describes(omissions, result, original, xs, a) &&
        Describes(omissions, result, original, ys, b)
    ensures a == b
  {
    SameCorrections(omissions, result, xs, ys, a.corrections, b.corrections);
    SameCorrections(omissions, result, ys, xs, b.corrections, a.corrections);
    assert a.corrections == b.corrections;
    forall l ensures l in a.inputs <==> l in b.inputs { SuppliedSame(original.inputs, xs, ys, a.inputs, b.inputs, l); }
    forall l | l in a.inputs ensures a.inputs[l] == b.inputs[l] {
      SuppliedSame(original.inputs, xs, ys, a.inputs, b.inputs, l);
    }
    assert a.inputs == b.inputs;
    assert a.resources == b.resources;
    assert a.dependencies == b.dependencies;
    assert a.resolved == b.resolved;
  }

  lemma SameCorrections(omissions: Omissions, result: ResultId, xs: seq<Evidence>, ys: seq<Evidence>,
                        a: map<(Scope, Label), Correction>, b: map<(Scope, Label), Correction>)
    requires SameEvidence(xs, ys) && CorrectionsAre(omissions, result, xs, a) &&
        CorrectionsAre(omissions, result, ys, b)
    ensures forall key :: key in a ==> key in b && b[key] == a[key]
  {
    forall key | key in a ensures key in b && b[key] == a[key] {
      assert SomeCorrects(omissions, result, xs, key, a[key]);
      assert SomeCorrects(omissions, result, ys, key, a[key]);
    }
  }

  lemma SuppliedSame(original: map<Label, Input>, xs: seq<Evidence>, ys: seq<Evidence>, a: map<Label, Input>,
      b: map<Label, Input>, l: Label)
    requires SameEvidence(xs, ys) && InputsAre(original, xs, a) && InputsAre(original, ys, b)
    ensures (l in a <==> l in b) && (l in a ==> a[l] == b[l])
  {
    assert forall input :: SomeSupplies(xs, input) <==> SomeSupplies(ys, input);
    if l in a && l !in original { assert SomeSupplies(ys, a[l]); }
    if l in b && l !in original { assert SomeSupplies(xs, b[l]); }
  }

  /** Any two accepted orders of the same evidence give the same maps and leave the same omissions open. */
  lemma Confluent(original: State, result: ResultId, xs: seq<Evidence>, ys: seq<Evidence>)
    requires Original(original) && DistinctIds(xs) && DistinctIds(ys) && SameEvidence(xs, ys)
    requires Fold(original, result, xs).Some? && Fold(original, result, ys).Some?
    ensures Fold(original, result, xs) == Fold(original, result, ys)
  {
    SameOmissions(xs, ys);
    var omissions := OmissionsIn(xs);
    var sx, sy := SupplementsIn(xs), SupplementsIn(ys);
    AcceptedDescribes(omissions, result, original, sx);
    AcceptedDescribes(omissions, result, original, sy);
    DescribedOnce(omissions, result, original, sx, sy, Steps(omissions, result, original, sx).value,
        Steps(omissions, result, original, sy).value);
  }

  /** Only names whose omission was resolved differ from the original declaration. */
  lemma OnlyResolvedNamesChange(original: State, result: ResultId, evidence: seq<Evidence>, scope: Scope, l: Label)
    requires Original(original) && Fold(original, result, evidence).Some?
    requires var f := Fold(original, result, evidence).value;
      if scope.ResourceScope? then
        (l in f.resources) != (l in original.resources) ||
        (l in f.resources && f.resources[l] != original.resources[l])
      else
        (l in f.dependencies) != (l in original.dependencies) ||
        (l in f.dependencies && f.dependencies[l] != original.dependencies[l])
    ensures var f := Fold(original, result, evidence).value;
      exists id :: id in OmissionsIn(evidence) && id !in f.unresolved && OmissionsIn(evidence)[id] == (scope, l)
  {
    var omissions, supplements := OmissionsIn(evidence), SupplementsIn(evidence);
    AcceptedDescribes(omissions, result, original, supplements);
    var st := Steps(omissions, result, original, supplements).value;
    assert (scope, l) in st.corrections;
    assert SomeCorrects(omissions, result, supplements, (scope, l), st.corrections[(scope, l)]);
    var s :| s in supplements && Corrects(omissions, result, s, (scope, l), st.corrections[(scope, l)]);
    assert s.supersedes.value in st.resolved;
  }

  lemma {:induction false} OmissionsAre(evidence: seq<Evidence>, id: EvidenceId)
    requires id in OmissionsIn(evidence)
    ensures exists e :: e in evidence && e.Omission? && e.id == id && (e.scope, e.name) == OmissionsIn(evidence)[id]
  {
    var n := |evidence| - 1;
    if evidence[n].Omission? && evidence[n].id == id {
      assert evidence[n] in evidence;
    } else {
      OmissionsAre(evidence[..n], id);
      var e :| e in evidence[..n] && e.Omission? && e.id == id &&
          (e.scope, e.name) == OmissionsIn(evidence[..n])[id];
      assert e in evidence;
    }
  }

  /** What stands in an accepted fold for one of its supplements: the established resource it observed, or the
      dependency it observed with the input its binding names. */
  predicate StandsFor(f: Folded, o: Observation, scope: Scope, name: Label) {
    match scope
    case ResourceScope =>
      && o.resource.Some? && o.dependency.None? && o.historical.None? && o.resource.value.established
      && o.resource.value.name == name && name in f.resources && f.resources[name] == o.resource.value
    case DependencyScope =>
      && o.dependency.Some? && o.resource.None? && o.dependency.value.name == name
      && name in f.dependencies && f.dependencies[name] == o.dependency.value
      && o.dependency.value.binding in f.inputs
      && (o.historical.Some? ==> f.inputs[o.dependency.value.binding] == o.historical.value)
  }

  /** Every supplement of an accepted fold is backed by its receipts, and corrects the very name that an omission of
      the same result left out, to the very value it observed. */
  lemma SupplementsStand(original: State, result: ResultId, evidence: seq<Evidence>, s: Evidence)
    requires Original(original) && Fold(original, result, evidence).Some? && s in evidence && s.Supplement?
    ensures var f := Fold(original, result, evidence).value;
      && s.result == result && s.receipts && s.observation.result == result && s.supersedes.Some?
      && exists o :: o in evidence && o.Omission? && o.id == s.supersedes.value && o.result == result &&
           o.id !in f.unresolved && StandsFor(f, s.observation, o.scope, o.name)
  {
    var omissions, supplements := OmissionsIn(evidence), SupplementsIn(evidence);
    AcceptedDescribes(omissions, result, original, supplements);
    assert s in supplements && CorrectionOf(omissions, result, s).Some?;
    var id := s.supersedes.value;
    OmissionsAre(evidence, id);
    var o :| o in evidence && o.Omission? && o.id == id && (o.scope, o.name) == omissions[id];
    assert RecordOk(result, o) && RecordOk(result, s);
    if CorrectionOf(omissions, result, s).value.OfDependency? {
      BindingStays(omissions, result, original, supplements, s);
    }
    SupplementHolds(omissions, result, original, supplements, s, Steps(omissions, result, original, supplements).value);
  }

  lemma SupplementHolds(omissions: Omissions, result: ResultId, original: State, supplements: seq<Evidence>,
      s: Evidence, st: State)
    requires Describes(omissions, result, original, supplements, st)
    requires s in supplements && CorrectionOf(omissions, result, s).Some?
    requires CorrectionOf(omissions, result, s).value.OfDependency? ==>
        CorrectionOf(omissions, result, s).value.dependency.binding in st.inputs
    ensures var (scope, name) := omissions[s.supersedes.value];
      && s.supersedes.value in st.resolved
      && StandsFor(Folded(st.resources, st.dependencies, st.inputs, omissions.Keys - st.resolved), s.observation, scope,
          name)
  {
    var key, c := omissions[s.supersedes.value], CorrectionOf(omissions, result, s).value;
    assert Corrects(omissions, result, s, key, c) && SomeCorrects(omissions, result, supplements, key, c);
    assert key in st.corrections && st.corrections[key] == c;
    HistoricalStands(original, supplements, s, st);
  }

  lemma HistoricalStands(original: State, supplements: seq<Evidence>, s: Evidence, st: State)
    requires InputsAre(original.inputs, supplements, st.inputs) && s in supplements && s.Supplement?
    ensures s.observation.historical.Some? ==> var input := s.observation.historical.value;
      input.name in st.inputs && st.inputs[input.name] == input
  {
    if s.observation.historical.Some? {
      assert Supplies(s, s.observation.historical.value) && SomeSupplies(supplements, s.observation.historical.value);
    }
  }

  /** The binding of a corrected dependency is there when it is corrected, and stays. */
  lemma {:induction false} BindingStays(omissions: Omissions, result: ResultId, original: State,
      supplements: seq<Evidence>, s: Evidence)
    requires s in supplements && (forall x :: x in supplements ==> x.Supplement?)
    requires Steps(omissions, result, original, supplements).Some?
    requires CorrectionOf(omissions, result, s).Some? && CorrectionOf(omissions, result, s).value.OfDependency?
    ensures CorrectionOf(omissions, result, s).value.dependency.binding in
        Steps(omissions, result, original, supplements).value.inputs
    decreases |supplements|
  {
    var n := |supplements| - 1;
    if s != supplements[n] {
      assert s in supplements[..n];
      BindingStays(omissions, result, original, supplements[..n], s);
    }
  }

  /** One omission and one supplement for it: accepted exactly when the receipts back an observation of the right
      result, shape and name whose binding is there. */
  lemma OneSupplementIff(original: State, result: ResultId, o: Evidence, s: Evidence)
    requires Original(original) && o.Omission? && o.result == result && o.supersedes.None?
    requires s.Supplement? && s.result == result && s.supersedes == Some(o.id)
    ensures Fold(original, result, [o, s]).Some? <==>
      var b := s.observation;
      && s.receipts && b.result == result
      && match o.scope
         case ResourceScope =>
           b.resource.Some? && b.resource.value.established && b.resource.value.name == o.name &&
           b.dependency.None? && b.historical.None?
         case DependencyScope =>
           && b.dependency.Some? && b.dependency.value.name == o.name && b.resource.None?
           && match b.historical
              case None => b.dependency.value.binding in original.inputs
              case Some(input) =>
                input.name == b.dependency.value.binding &&
                (input.name in original.inputs ==> original.inputs[input.name] == input)
  {
    PairFolds(original, result, o, s);
  }

  lemma PairFolds(original: State, result: ResultId, o: Evidence, s: Evidence)
    requires RecordOk(result, o) && RecordOk(result, s) && o.Omission? && s.Supplement?
    ensures Fold(original, result, [o, s]).Some? <==>
        Step(map[o.id := (o.scope, o.name)], result, original, s).Some?
  {
    PairOmits(o, s);
    PairSupplies(o, s);
    StepsOne(map[o.id := (o.scope, o.name)], result, original, s);
  }

  lemma PairOmits(o: Evidence, s: Evidence)
    requires o.Omission? && s.Supplement?
    ensures OmissionsIn([o, s]) == map[o.id := (o.scope, o.name)]
  {
    assert [o, s][..1] == [o] && [o][..0] == [];
    assert OmissionsIn([]) == map[] && OmissionsIn([o]) == OmissionsIn([])[o.id := (o.scope, o.name)];
  }

  lemma PairSupplies(o: Evidence, s: Evidence)
    requires o.Omission? && s.Supplement?
    ensures SupplementsIn([o, s]) == [s]
  {
    assert [o, s][..1] == [o] && [o][..0] == [];
    assert SupplementsIn([o]) == SupplementsIn([]) + [];
  }

  lemma StepsOne(omissions: Omissions, result: ResultId, st: State, s: Evidence)
    requires s.Supplement?
    ensures Steps(omissions, result, st, [s]) == Step(omissions, result, st, s)
  {
    assert [s][..0] == [];
    assert Steps(omissions, result, st, []) == Some(st);
  }

  // ----- exactly when a fold is accepted -----

  /** No two supplements, nor a supplement and an original input, disagree. */
  ghost predicate Consistent(omissions: Omissions, result: ResultId, original: State, supplements: seq<Evidence>) {
    && (forall s :: s in supplements ==> CorrectionOf(omissions, result, s).Some?)
    && (forall key, c, d ::
          SomeCorrects(omissions, result, supplements, key, c) ==>
            SomeCorrects(omissions, result, supplements, key, d) ==> c == d)
    && (forall input :: SomeSupplies(supplements, input) && input.name in original.inputs ==>
        original.inputs[input.name] == input)
    && (forall x, y :: SomeSupplies(supplements, x) && SomeSupplies(supplements, y) && x.name == y.name ==> x == y)
  }

  predicate SelfBound(original: State, s: Evidence) {
    s.Supplement? && s.observation.dependency.Some? ==>
      s.observation.dependency.value.binding in original.inputs || s.observation.historical.Some?
  }

  predicate BoundBy(s: Evidence, name: Label) {
    s.Supplement? && s.observation.historical.Some? && s.observation.historical.value.name == name
  }

  /** A corrected dependency finds its binding: original, its own, or supplied earlier in the order. */
  predicate BoundAt(original: State, supplements: seq<Evidence>, i: nat)
    requires i < |supplements|
  {
    SelfBound(original, supplements[i]) ||
    exists j :: 0 <= j < i && BoundBy(supplements[j], supplements[i].observation.dependency.value.binding)
  }

  ghost predicate Acceptable(omissions: Omissions, result: ResultId, original: State, supplements: seq<Evidence>) {
    Consistent(omissions, result, original, supplements) && forall i :: 0 <= i < |supplements| ==>
        BoundAt(original, supplements, i)
  }

  lemma ConsistentPart(omissions: Omissions, result: ResultId, original: State, before: seq<Evidence>, s: Evidence)
    requires Consistent(omissions, result, original, before + [s])
    ensures Consistent(omissions, result, original, before)
  {
    var all := before + [s];
    assert forall x :: x in before ==> x in all;
    forall key, c | SomeCorrects(omissions, result, before, key, c)
        ensures SomeCorrects(omissions, result, all, key, c) {
      var x :| x in before && Corrects(omissions, result, x, key, c);
      assert x in all;
    }
    forall input | SomeSupplies(before, input) ensures SomeSupplies(all, input) {
      var x :| x in before && Supplies(x, input);
      assert x in all;
    }
  }

  /** A supplement is taken exactly when it is consistent with those before it and its binding is there. */
  lemma StepAccepted(omissions: Omissions, result: ResultId, original: State, before: seq<Evidence>, mid: State,
      s: Evidence)
    requires Describes(omissions, result, original, before, mid) && Consistent(omissions, result, original, before) &&
        s.Supplement?
    ensures Step(omissions, result, mid, s).Some? <==>
      Consistent(omissions, result, original, before + [s]) && BoundAt(original, before + [s], |before|)
  {
    var all := before + [s];
    assert s in all && all[|before|] == s && forall x :: x in before ==> x in all;
    if CorrectionOf(omissions, result, s).Some? {
      var key, c := omissions[s.supersedes.value], CorrectionOf(omissions, result, s).value;
      assert Corrects(omissions, result, s, key, c) && SomeCorrects(omissions, result, all, key, c);
      if s.observation.historical.Some? {
        assert Supplies(s, s.observation.historical.value) && SomeSupplies(all, s.observation.historical.value);
      }
      if c.OfDependency? { BindingFound(original, before, mid.inputs, s); }
      if Step(omissions, result, mid, s).Some? {
        StepDescribes(omissions, result, original, before, mid, s);
        DescribedIsConsistent(omissions, result, original, all, Step(omissions, result, mid, s).value);
      } else if Consistent(omissions, result, original, all) && BoundAt(original, all, |before|) {
        if key in mid.corrections && mid.corrections[key] != c {
          assert SomeCorrects(omissions, result, before, key, mid.corrections[key]);
          var x :| x in before && Corrects(omissions, result, x, key, mid.corrections[key]);
          assert SomeCorrects(omissions, result, all, key, mid.corrections[key]);
        } else if !InputsAgree(mid.inputs, s.observation) {
          var l := s.observation.historical.value.name;
          assert l !in original.inputs;
          var x :| x in before && Supplies(x, mid.inputs[l]);
          assert SomeSupplies(all, mid.inputs[l]);
        }
      }
    }
  }

  lemma DescribedIsConsistent(omissions: Omissions, result: ResultId, original: State, supplements: seq<Evidence>,
      st: State)
    requires Describes(omissions, result, original, supplements, st)
    ensures Consistent(omissions, result, original, supplements)
  {
  }

  lemma BindingFound(original: State, before: seq<Evidence>, inputs: map<Label, Input>, s: Evidence)
    requires InputsAre(original.inputs, before, inputs) && s.Supplement? && s.observation.dependency.Some?
    requires s.observation.historical.Some? ==>
        s.observation.historical.value.name == s.observation.dependency.value.binding
    ensures s.observation.dependency.value.binding in WithHistorical(inputs, s.observation) <==>
        BoundAt(original, before + [s], |before|)
  {
    var all, name := before + [s], s.observation.dependency.value.binding;
    if j :| 0 <= j < |before| && BoundBy(all[j], name) {
      assert all[j] == before[j] && all[j] in before;
      assert SomeSupplies(before, all[j].observation.historical.value);
    }
    if name in inputs && name !in original.inputs {
      var x :| x in before && Supplies(x, inputs[name]);
      var j :| 0 <= j < |before| && before[j] == x;
      assert BoundBy(all[j], name);
    }
  }

  /** The fold is accepted exactly when nothing disagrees and every binding is there in time. */
  lemma {:induction false} AcceptedIff(omissions: Omissions, result: ResultId, original: State,
      supplements: seq<Evidence>)
    requires Original(original) && forall s :: s in supplements ==> s.Supplement?
    ensures Steps(omissions, result, original, supplements).Some? <==>
        Acceptable(omissions, result, original, supplements)
    decreases |supplements|
  {
    if supplements == [] {
      NothingDescribes(omissions, result, original);
    } else {
      var n := |supplements| - 1;
      var before, s := supplements[..n], supplements[n];
      assert supplements == before + [s];
      AcceptedIff(omissions, result, original, before);
      BoundPrefix(original, before, s);
      if Acceptable(omissions, result, original, supplements) {
        ConsistentPart(omissions, result, original, before, s);
      }
      if Steps(omissions, result, original, before).Some? {
        AcceptedDescribes(omissions, result, original, before);
        StepAccepted(omissions, result, original, before, Steps(omissions, result, original, before).value, s);
      }
    }
  }

  lemma BoundPrefix(original: State, before: seq<Evidence>, s: Evidence)
    ensures forall i :: 0 <= i < |before| ==> (BoundAt(original, before, i) <==> BoundAt(original, before + [s], i))
  {
    forall i | 0 <= i < |before| ensures BoundAt(original, before, i) <==> BoundAt(original, before + [s], i) {
      assert forall j :: 0 <= j <= i ==> (before + [s])[j] == before[j];
    }
  }

  // ----- acceptance and order -----

  predicate Permutes(xs: seq<Evidence>, ys: seq<Evidence>) { multiset(xs) == multiset(ys) }

  lemma PermutationSame(xs: seq<Evidence>, ys: seq<Evidence>)
    requires Permutes(xs, ys)
    ensures SameEvidence(xs, ys)
  {
    forall e ensures e in xs <==> e in ys {
      assert e in xs <==> e in multiset(xs); assert e in ys <==> e in multiset(ys);
    }
  }

  lemma ConsistentSame(omissions: Omissions, result: ResultId, original: State, xs: seq<Evidence>, ys: seq<Evidence>)
    requires SameEvidence(xs, ys) && Consistent(omissions, result, original, xs)
    ensures Consistent(omissions, result, original, ys)
  {
    assert forall key, c :: SomeCorrects(omissions, result, ys, key, c) ==> SomeCorrects(omissions, result, xs, key, c);
    assert forall input :: SomeSupplies(ys, input) ==> SomeSupplies(xs, input);
  }

  /** Every dependency supplement finds its binding in the original request or brings it itself. */
  predicate SelfContained(original: State, evidence: seq<Evidence>) {
    forall s :: s in evidence ==> SelfBound(original, s)
  }

  predicate Accepted(omissions: Omissions, result: ResultId, original: State, supplements: seq<Evidence>) {
    (forall s :: s in supplements ==> s.Supplement?) && Steps(omissions, result, original, supplements).Some?
  }

  /** Supplements accepted in one order are accepted in every order exactly when each is self-contained. */
  lemma AcceptedInEveryOrder(omissions: Omissions, result: ResultId, original: State, xs: seq<Evidence>)
    requires Original(original) && Accepted(omissions, result, original, xs)
    ensures (forall ys :: Permutes(xs, ys) ==> Accepted(omissions, result, original, ys)) <==>
        SelfContained(original, xs)
  {
    if SelfContained(original, xs) {
      forall ys | Permutes(xs, ys) ensures Accepted(omissions, result, original, ys) {
        SelfContainedAnyOrder(omissions, result, original, xs, ys);
      }
    } else {
      var k :| 0 <= k < |xs| && !SelfBound(original, xs[k]);
      MovedFirst(xs, k);
      var ys := [xs[k]] + xs[..k] + xs[k + 1..];
      assert !BoundAt(original, ys, 0);
      if Accepted(omissions, result, original, ys) { AcceptedIff(omissions, result, original, ys); }
    }
  }

  lemma SelfContainedAnyOrder(omissions: Omissions, result: ResultId, original: State, xs: seq<Evidence>,
      ys: seq<Evidence>)
    requires Original(original) && Accepted(omissions, result, original, xs) && SelfContained(original, xs) &&
        Permutes(xs, ys)
    ensures Accepted(omissions, result, original, ys)
  {
    PermutationSame(xs, ys);
    AcceptedIff(omissions, result, original, xs);
    ConsistentSame(omissions, result, original, xs, ys);
    AcceptedIff(omissions, result, original, ys);
  }

  lemma MovedFirst(xs: seq<Evidence>, k: nat)
    requires k < |xs|
    ensures Permutes(xs, [xs[k]] + xs[..k] + xs[k + 1..])
  {
    assert xs == xs[..k] + [xs[k]] + xs[k + 1..];
  }

  // ----- the exception is real: admitted in one order, refused when read back by identity -----

  const BARE: State := State(map[], map[], map[], map[], {})
  const OPEN_A: Evidence := Omission("o1", "result", None, DependencyScope, "a")
  const OPEN_B: Evidence := Omission("o2", "result", None, DependencyScope, "b")
  const USES: Evidence :=
      Supplement("s1", "result", Some("o1"), true,
      Observation("result", None, Some(Dependency("a", "lost", "whole")), None))
  const BRINGS: Evidence := Supplement("s2", "result", Some("o2"), true,
    Observation("result", None, Some(Dependency("b", "lost", "whole")), Some(Input("lost", "entity"))))

  const OPEN: Omissions := map["o1" := (DependencyScope, "a"), "o2" := (DependencyScope, "b")]

  /** "s2" was recorded before "s1"; each admission succeeded, and the next read, in identity order, refuses. */
  lemma AdmittedThenRefused()
    ensures Fold(BARE, "result", [OPEN_A, OPEN_B, BRINGS]).Some?
    ensures Fold(BARE, "result", [OPEN_A, OPEN_B, BRINGS, USES]).Some?
    ensures Fold(BARE, "result", [OPEN_A, OPEN_B, USES, BRINGS]).None?
  {
    BringsFirst();
    UsesFirst();
    FoldReads([BRINGS], [OPEN_A, OPEN_B, BRINGS]);
    FoldReads([BRINGS, USES], [OPEN_A, OPEN_B, BRINGS, USES]);
    FoldReads([USES, BRINGS], [OPEN_A, OPEN_B, USES, BRINGS]);
  }

  /** Omissions followed by supplements read as those omissions and those supplements. */
  lemma {:induction false} Reads(open: seq<Evidence>, supplements: seq<Evidence>)
    requires SupplementsIn(open) == [] && forall s :: s in supplements ==> s.Supplement?
    ensures OmissionsIn(open + supplements) == OmissionsIn(open) && SupplementsIn(open + supplements) == supplements
    decreases |supplements|
  {
    if supplements == [] {
      assert open + supplements == open;
    } else {
      var n := |supplements| - 1;
      assert supplements[n] in supplements;
      Reads(open, supplements[..n]);
      LastApart(open, supplements);
      ReadsLast(open + supplements[..n], supplements[n], open + supplements);
    }
  }

  lemma LastApart(a: seq<Evidence>, b: seq<Evidence>)
    requires b != []
    ensures a + b == a + b[..|b| - 1] + [b[|b| - 1]] && b == b[..|b| - 1] + [b[|b| - 1]]
  {
  }

  lemma ReadsLast(front: seq<Evidence>, s: Evidence, all: seq<Evidence>)
    requires s.Supplement? && all == front + [s]
    ensures OmissionsIn(all) == OmissionsIn(front) && SupplementsIn(all) == SupplementsIn(front) + [s]
  {
    assert all[..|front|] == front;
  }

  lemma ReadsOmissions()
    ensures OmissionsIn([OPEN_A, OPEN_B]) == OPEN && SupplementsIn([OPEN_A, OPEN_B]) == []
  {
    assert [OPEN_A, OPEN_B][..1] == [OPEN_A] && [OPEN_A][..0] == [];
    assert OmissionsIn([OPEN_A]) == map["o1" := (DependencyScope, "a")];
    assert SupplementsIn([OPEN_A]) == [];
  }

  lemma FoldReads(supplements: seq<Evidence>, all: seq<Evidence>)
    requires (forall s :: s in supplements ==> s.Supplement? && s.result == "result") &&
        all == [OPEN_A, OPEN_B] + supplements
    ensures Fold(BARE, "result", all).Some? <==> Steps(OPEN, "result", BARE, supplements).Some?
  {
    ReadsOmissions();
    Reads([OPEN_A, OPEN_B], supplements);
    forall e | e in all ensures RecordOk("result", e) {}
  }

  lemma BringsFirst()
    ensures Steps(OPEN, "result", BARE, [BRINGS]).Some? && Steps(OPEN, "result", BARE, [BRINGS, USES]).Some?
  {
    assert [BRINGS][..0] == [] && [BRINGS, USES][..1] == [BRINGS];
    var c := CorrectionOf(OPEN, "result", BRINGS);
    var after := Step(OPEN, "result", BARE, BRINGS).value;
    assert Steps(OPEN, "result", BARE, [BRINGS]) == Some(after);
    assert "lost" in after.inputs && after.corrections.Keys == {(DependencyScope, "b")};
  }

  lemma UsesFirst()
    ensures Steps(OPEN, "result", BARE, [USES, BRINGS]).None?
  {
    assert [USES][..0] == [] && [USES, BRINGS][..1] == [USES];
    assert Step(OPEN, "result", BARE, USES).None?;
    assert Steps(OPEN, "result", BARE, [USES]).None?;
  }

  // ----- the loops -----

  /** The omissions and supplements of the first records. */
  predicate Collected(evidence: seq<Evidence>, i: nat, omissions: Omissions, supplements: seq<Evidence>)
    requires i <= |evidence|
  {
    omissions == OmissionsIn(evidence[..i]) && supplements == SupplementsIn(evidence[..i])
  }

  lemma CollectsNext(evidence: seq<Evidence>, i: nat, omissions: Omissions, supplements: seq<Evidence>)
    requires i < |evidence| && Collected(evidence, i, omissions, supplements)
    ensures var e := evidence[i];
      if e.Omission? then Collected(evidence, i + 1, omissions[e.id := (e.scope, e.name)], supplements)
          else Collected(evidence, i + 1, omissions, supplements + [e])
  {
    assert evidence[..i + 1][..i] == evidence[..i];
  }

  lemma CollectedAll(evidence: seq<Evidence>, omissions: Omissions, supplements: seq<Evidence>)
    requires Collected(evidence, |evidence|, omissions, supplements)
    ensures omissions == OmissionsIn(evidence) && supplements == SupplementsIn(evidence)
  {
    assert evidence[..|evidence|] == evidence;
  }

  /** The first pass: which omissions and supplements there are, unless a record belongs elsewhere. */
  method Collect(result: ResultId, evidence: seq<Evidence>)
      returns (ok: bool, omissions: Omissions, supplements: seq<Evidence>)
    ensures ok <==> forall e :: e in evidence ==> RecordOk(result, e)
    ensures ok ==> omissions == OmissionsIn(evidence) && supplements == SupplementsIn(evidence)
  {
    ok, omissions, supplements := true, map[], [];
    for i := 0 to |evidence|
      invariant ok && OkUpTo(result, evidence, i) && Collected(evidence, i, omissions, supplements)
    {
      var e := evidence[i];
      CollectsNext(evidence, i, omissions, supplements);
      if e.result != result || (e.Omission? && e.supersedes.Some?) {
        assert e in evidence && !RecordOk(result, e);
        return false, omissions, supplements;
      }
      if e.Omission? { omissions := omissions[e.id := (e.scope, e.name)]; } else { supplements := supplements + [e]; }
    }
    CollectedAll(evidence, omissions, supplements);
    OkToTheEnd(result, evidence);
  }

  predicate OkUpTo(result: ResultId, evidence: seq<Evidence>, n: nat)
    requires n <= |evidence|
  {
    forall k :: 0 <= k < n ==> RecordOk(result, evidence[k])
  }

  lemma OkToTheEnd(result: ResultId, evidence: seq<Evidence>)
    requires OkUpTo(result, evidence, |evidence|)
    ensures forall e :: e in evidence ==> RecordOk(result, e)
  {
  }

  lemma StepsNext(omissions: Omissions, result: ResultId, st: State, supplements: seq<Evidence>, i: nat)
    requires (forall s :: s in supplements ==> s.Supplement?) && i < |supplements|
    ensures Steps(omissions, result, st, supplements[..i + 1]) ==
      match Steps(omissions, result, st, supplements[..i]) case None => None case Some(mid) =>
          Step(omissions, result, mid, supplements[i])
  {
    assert supplements[..i + 1][..i] == supplements[..i];
  }

  /** The second pass: the supplements in order, until one is refused. */
  method ApplyAll(omissions: Omissions, result: ResultId, original: State, supplements: seq<Evidence>)
      returns (after: Option<State>)
    requires forall s :: s in supplements ==> s.Supplement?
    ensures after == Steps(omissions, result, original, supplements)
  {
    var st := original;
    for i := 0 to |supplements|
      invariant Steps(omissions, result, original, supplements[..i]) == Some(st)
    {
      StepsNext(omissions, result, original, supplements, i);
      assert supplements[i] in supplements;
      var next := ApplySupplement(omissions, result, st, supplements[i]);
      if next.None? {
        RefusalStays(omissions, result, original, supplements, i + 1);
        return None;
      }
      st := next.value;
    }
    assert supplements[..|supplements|] == supplements;
    after := Some(st);
  }

  /** `_fold`: first collect omissions and supplements, then apply the supplements in order. */
  method FoldEvidence(original: State, result: ResultId, evidence: seq<Evidence>) returns (folded: Option<Folded>)
    requires Original(original)
    ensures folded == Fold(original, result, evidence)
  {
    var ok, omissions, supplements := Collect(result, evidence);
    if !ok { return None; }
    var st := ApplyAll(omissions, result, original, supplements);
    if st.None? { return None; }
    folded := Some(Folded(st.value.resources, st.value.dependencies, st.value.inputs,
        omissions.Keys - st.value.resolved));
  }

  lemma {:induction false} RefusalStays(omissions: Omissions, result: ResultId, original: State,
      supplements: seq<Evidence>, n: nat)
    requires (forall s :: s in supplements ==> s.Supplement?) && n <= |supplements|
    requires Steps(omissions, result, original, supplements[..n]).None?
    ensures Steps(omissions, result, original, supplements).None?
    decreases |supplements| - n
  {
    if n == |supplements| {
      assert supplements[..n] == supplements;
    } else {
      assert supplements[..n + 1][..n] == supplements[..n];
      RefusalStays(omissions, result, original, supplements, n + 1);
    }
  }

  /** The checks of one supplement, in the source's order. */
  method ApplySupplement(omissions: Omissions, result: ResultId, st: State, s: Evidence) returns (next: Option<State>)
    requires s.Supplement?
    ensures next == Step(omissions, result, st, s)
  {
    if s.supersedes.None? || s.supersedes.value !in omissions { return None; }
    var target := s.supersedes.value;
    var (scope, name) := omissions[target];
    var o := s.observation;
    if o.result != result || !s.receipts { return None; }
    var resources, dependencies, inputs := st.resources, st.dependencies, st.inputs;
    var value: Correction;
    if scope.ResourceScope? {
      if o.resource.None? || o.dependency.Some? || o.historical.Some? { return None; }
      if o.resource.value.name != name || !o.resource.value.established { return None; }
      value := OfResource(o.resource.value);
      resources := resources[name := o.resource.value];
    } else {
      if o.dependency.None? || o.resource.Some? || o.dependency.value.name != name { return None; }
      if o.historical.Some? {
        var historical := o.historical.value;
        if historical.name != o.dependency.value.binding { return None; }
        if historical.name in inputs && inputs[historical.name] != historical { return None; }
        inputs := inputs[historical.name := historical];
      }
      if o.dependency.value.binding !in inputs { return None; }
      value := OfDependency(o.dependency.value);
      dependencies := dependencies[name := o.dependency.value];
    }
    var key := (scope, name);
    if key in st.corrections && st.corrections[key] != value { return None; }
    next := Some(State(resources, dependencies, inputs, st.corrections[key := value], st.resolved + {target}));
  }
}
