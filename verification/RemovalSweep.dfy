/** `remove_under_policy`, `resume` and `_delete` as the code one caller runs.  Every method takes atomic steps of the
    machine in Removal, and may be killed before any of them. */
module RemovalSweep {
  import opened Prelude
  import opened PhysicalIndex
  import opened Removal

  /** `Raised`: a deletion raised, and is recorded as failed. */
  datatype Outcome = Complete | Refused | Killed | Raised

  /** What an unfinished target ends as: kept if protected, otherwise gone. */
  function FinalStatus(protected: set<Address>, disk: set<Address>, a: Address): Status {
    if a in protected then Retained else if a in disk then Deleted else Absent
  }

  /** The intent once the targets in `done` are settled. */
  function Settled(intent: Intent, protected: set<Address>, disk: set<Address>, done: set<Address>): Intent {
    intent.(targets := map a | a in intent.targets :: if a in done then FinalStatus(protected, disk, a)
        else intent.targets[a])
  }

  lemma SettleOne(intent: Intent, protected: set<Address>, disk: set<Address>, done: set<Address>, a: Address)
    requires done <= Unfinished(intent) && a in Unfinished(intent) - done
    ensures var s := Settled(intent, protected, disk, done);
      && Settled(intent, protected, disk, done + {a}) == s.(targets := s.targets[a := FinalStatus(protected, disk, a)])
      && Unfinished(s) == Unfinished(intent) - done
      && Unfinished(Settled(intent, protected, disk, done + {a})) == Unfinished(intent) - (done + {a})
  {
  }

  lemma SettledAll(intent: Intent, protected: set<Address>, disk: set<Address>)
    ensures Unfinished(Settled(intent, protected, disk, Unfinished(intent))) == {}
  {
  }

  /** What a removal targets: everything its scope reaches, and each explicit orphan. */
  ghost predicate Target(w: World, s: State, keys: set<Key>, orphans: seq<Content>, a: Address) {
    ScopeReaches(w, s, keys, a) || exists i :: 0 <= i < |orphans| && AddressOf(orphans[i]) == a
  }

  /** What it deletes: the targets that nothing outside the scope needs. */
  ghost predicate Removable(w: World, s: State, keys: set<Key>, orphans: seq<Content>, a: Address) {
    Target(w, s, keys, orphans, a) && !Needed(w, s, keys, a)
  }

  /** The same rows over the same bytes, with the scope no longer available. */
  predicate ScopeEnded(before: map<Key, Entry>, after: map<Key, Entry>, keys: set<Key>) {
    && after.Keys == before.Keys
    && forall k :: k in before ==> RowEnded(before[k], after[k], k in keys)
  }

  predicate RowEnded(before: Entry, after: Entry, scoped: bool) {
    && after.record == before.record && after.layer == before.layer && after.retained == before.retained
    && (after.available <==> before.available && !scoped)
  }

  /** A settled target: kept because it is protected, deleted, or not there to delete. */
  predicate Settles(status: Status, protected: bool, existed: bool) {
    && (status == Retained <==> protected)
    && (status == Deleted <==> !protected && existed)
    && (status == Absent <==> !protected && !existed)
  }

  lemma ResumeProtects(w: World, s: State, update: UpdateId, items: seq<Item>)
    requires s.sweep.None? && update in s.removals && !s.removals[update].complete
    requires (set x | x in items) == MarkItems(s, {}, false) && FrontiersOk(s, {})
    requires InventoryOf(w, map[], items, {}).Some?
    ensures var protected := ProtectedIn(InventoryOf(w, map[], items, {}).value);
      && Apply(w, s, Resume(update, items)) == s.(sweep := Some(Sweep(update, protected, None)))
      && (forall a :: a in protected <==> Needed(w, s, {}, a))
  {
    var protected := ProtectedIn(InventoryOf(w, map[], items, {}).value);
    forall a ensures a in protected <==> Needed(w, s, {}, a) {
      InventoryMeans(w, map[], items, {}, a);
      MarkingProtects(w, s, {}, false, items, a);
    }
  }

  lemma OrphansNamed(orphans: seq<Content>, a: Address)
    ensures !Names(Orphans(orphans), a, true)
    ensures Names(Orphans(orphans), a, false) <==> exists i :: 0 <= i < |orphans| && AddressOf(orphans[i]) == a
  {
    if i :| 0 <= i < |orphans| && AddressOf(orphans[i]) == a {
      assert Orphans(orphans)[i] == (orphans[i], false);
    }
  }

  /** Beginning a removal ends the availability of its scope, and records every target as pending; its marking protects
      exactly what the rest of the ledger needs. */
  lemma BeginProtects(w: World, s: State, update: UpdateId, keys: set<Key>, orphans: seq<Content>, items: seq<Item>,
      u: Table)
    requires s.sweep.None? && update !in s.removals && forall k :: k in keys ==> k in s.rows && s.rows[k].retained
    requires (set x | x in items) == MarkItems(s, keys, true) && FrontiersOk(s, keys)
    requires InventoryOf(w, map[], items, keys).Some?
    requires var t := InventoryOf(w, map[], items, keys).value;
      Mark(t, Orphans(orphans)) == Some(u) && forall i :: 0 <= i < |orphans| ==>
          AddressOf(orphans[i]) !in ProtectedIn(t)
    requires keys != {} || exists a :: a in u && u[a].candidate
    ensures var after := BeginRemoval(w, s, update, keys, orphans, items);
      && after.sweep == Some(Sweep(update, ProtectedIn(u), None)) && after.disk == s.disk &&
          after.frontiers == s.frontiers
      && ScopeEnded(s.rows, after.rows, keys)
      && update in after.removals && after.removals[update].keys == keys && !after.removals[update].complete
      && (forall a :: a in ProtectedIn(u) <==> Needed(w, s, keys, a))
      && (forall a :: Needed(w, after, {}, a) ==> a in ProtectedIn(u))
      && (forall a :: a in after.removals[update].targets <==> Target(w, s, keys, orphans, a))
      && Unfinished(after.removals[update]) == after.removals[update].targets.Keys
  {
    var t := InventoryOf(w, map[], items, keys).value;
    var after := BeginRemoval(w, s, update, keys, orphans, items);
    var targets := map a | a in u && u[a].candidate :: Pending;
    if keys == {} {
      var a :| a in u && u[a].candidate;
      assert a in targets;
    }
    assert after.removals[update] == Intent(keys, targets, false);
    assert after != s;
    BeginGuards(w, s, update, keys, orphans, items);
    forall a ensures (a in ProtectedIn(u) <==> Needed(w, s, keys, a)) &&
        (a in targets <==> Target(w, s, keys, orphans, a)) {
      MarkedMeans(w, s, keys, orphans, items, u, a);
    }
  }

  lemma MarkedMeans(w: World, s: State, keys: set<Key>, orphans: seq<Content>, items: seq<Item>, u: Table, a: Address)
    requires (set x | x in items) == MarkItems(s, keys, true) && FrontiersOk(s, keys)
    requires InventoryOf(w, map[], items, keys).Some?
    requires Mark(InventoryOf(w, map[], items, keys).value, Orphans(orphans)) == Some(u)
    ensures a in ProtectedIn(u) <==> Needed(w, s, keys, a)
    ensures a in u && u[a].candidate <==> Target(w, s, keys, orphans, a)
  {
    var t := InventoryOf(w, map[], items, keys).value;
    InventoryMeans(w, map[], items, keys, a);
    MarkMeans(t, Orphans(orphans), a);
    OrphansNamed(orphans, a);
    MarkingProtects(w, s, keys, true, items, a);
    MarkingCandidates(w, s, keys, items, a);
  }

  // ----- when a removal refuses -----

  /** Why a marking refuses: a state it would split, contents that contradict each other, or a recoverable operation
      whose requirements are removed or unavailable. */
  ghost predicate MarkingRefuses(w: World, s: State, keys: set<Key>, items: seq<Item>) {
    SplitsState(w, s, keys) || Contradictory(w, items) || !FrontiersOk(s, keys)
  }

  lemma MarkingRefusesIff(w: World, s: State, keys: set<Key>, candidates: bool, items: seq<Item>)
    requires (set x | x in items) == MarkItems(s, keys, candidates)
    ensures MarkingRefuses(w, s, keys, items) <==>
        InventoryOf(w, map[], items, keys).None? || !FrontiersOk(s, keys)
  {
    SplitsIff(w, s, keys, candidates, items);
    InventoryRefusesIff(w, map[], items, keys);
  }

  /** Why an existing removal is not resumed. */
  ghost predicate ResumeRefuses(w: World, s: State, update: UpdateId, items: seq<Item>) {
    update !in s.removals || (!s.removals[update].complete && MarkingRefuses(w, s, {}, items))
  }

  /** Why a repeated removal is refused: another scope, other targets, or as a resume. */
  ghost predicate RetryRefuses(w: World, s: State, update: UpdateId, keys: set<Key>, orphans: seq<Content>,
      items: seq<Item>)
    requires update in s.removals
  {
    || s.removals[update].keys != keys
    || (exists i :: 0 <= i < |orphans| && AddressOf(orphans[i]) !in s.removals[update].targets)
    || ResumeRefuses(w, s, update, items)
  }

  /** An orphan contradicts another, or something indexed. */
  ghost predicate OrphanContradicts(w: World, orphans: seq<Content>, items: seq<Item>) {
    || (exists i, j :: 0 <= i < |orphans| && 0 <= j < |orphans| && !Compatible(orphans[i], orphans[j]))
    || (exists i, c :: 0 <= i < |orphans| && Kept(w, items, c) && !Compatible(c, orphans[i]))
  }

  /** Why a new removal is refused: a key that was never retained, a marking that refuses, an orphan that is
      needed or contradicts what is indexed, or nothing at all to remove. */
  ghost predicate NewRefuses(w: World, s: State, keys: set<Key>, orphans: seq<Content>, items: seq<Item>) {
    || (exists k :: k in keys && !(k in s.rows && s.rows[k].retained))
    || MarkingRefuses(w, s, keys, items)
    || (exists i :: 0 <= i < |orphans| && Needed(w, s, keys, AddressOf(orphans[i])))
    || OrphanContradicts(w, orphans, items)
    || (keys == {} && orphans == [])
  }

  lemma OrphansMarkIff(w: World, keys: set<Key>, orphans: seq<Content>, items: seq<Item>)
    requires InventoryOf(w, map[], items, keys).Some?
    ensures Mark(InventoryOf(w, map[], items, keys).value, Orphans(orphans)).None? <==>
        OrphanContradicts(w, orphans, items)
  {
    var t, o := InventoryOf(w, map[], items, keys).value, Orphans(orphans);
    MarksIff(t, o);
    assert forall i :: 0 <= i < |orphans| ==> o[i] == (orphans[i], false);
    forall i | 0 <= i < |orphans|
      ensures Agrees(t, orphans[i]) <==> forall d :: Kept(w, items, d) ==> Compatible(d, orphans[i]) {
      InventoryAgrees(w, map[], items, keys, orphans[i]);
    }
    if SelfCompatible(o) {
      forall i, j | 0 <= i < |orphans| && 0 <= j < |orphans| ensures Compatible(orphans[i], orphans[j]) {
        assert o[i] in o && o[j] in o && CompatibleWith(o, o[j].0);
      }
    }
  }

  /** A marking that does not refuse protects exactly what is needed. */
  lemma ProtectedMeans(w: World, s: State, keys: set<Key>, items: seq<Item>, a: Address)
    requires (set x | x in items) == MarkItems(s, keys, true) && FrontiersOk(s, keys)
    requires InventoryOf(w, map[], items, keys).Some?
    ensures a in ProtectedIn(InventoryOf(w, map[], items, keys).value) <==> Needed(w, s, keys, a)
  {
    InventoryMeans(w, map[], items, keys, a);
    MarkingProtects(w, s, keys, true, items, a);
  }

  /** Without a scope there is nothing to remove exactly when no orphan is given. */
  lemma NothingToRemove(w: World, s: State, orphans: seq<Content>, items: seq<Item>, u: Table)
    requires (set x | x in items) == MarkItems(s, {}, true) && FrontiersOk(s, {})
    requires InventoryOf(w, map[], items, {}).Some?
    requires Mark(InventoryOf(w, map[], items, {}).value, Orphans(orphans)) == Some(u)
    ensures (forall a :: a in u ==> !u[a].candidate) <==> orphans == []
  {
    forall a ensures a in u && u[a].candidate <==> Target(w, s, {}, orphans, a) {
      MarkedMeans(w, s, {}, orphans, items, u, a);
    }
    if orphans != [] { assert Target(w, s, {}, orphans, AddressOf(orphans[0])); }
  }

  /** The checks of a new removal, in the order in which they are made, refuse exactly for these reasons. */
  lemma NewRefusesIff(w: World, s: State, keys: set<Key>, orphans: seq<Content>, items: seq<Item>)
    requires (set x | x in items) == MarkItems(s, keys, true)
    ensures NewRefuses(w, s, keys, orphans, items) <==>
      || (exists k :: k in keys && !(k in s.rows && s.rows[k].retained))
      || InventoryOf(w, map[], items, keys).None? || !FrontiersOk(s, keys)
      || var t := InventoryOf(w, map[], items, keys).value;
         || (exists i :: 0 <= i < |orphans| && AddressOf(orphans[i]) in ProtectedIn(t))
         || match Mark(t, Orphans(orphans))
            case None => true
            case Some(u) => keys == {} && forall a :: a in u ==> !u[a].candidate
  {
    MarkingRefusesIff(w, s, keys, true, items);
    if InventoryOf(w, map[], items, keys).Some? && FrontiersOk(s, keys) {
      var t := InventoryOf(w, map[], items, keys).value;
      OrphansMarkIff(w, keys, orphans, items);
      forall a ensures a in ProtectedIn(t) <==> Needed(w, s, keys, a) { ProtectedMeans(w, s, keys, items, a); }
      if keys == {} && Mark(t, Orphans(orphans)).Some? {
        NothingToRemove(w, s, orphans, items, Mark(t, Orphans(orphans)).value);
      }
    }
  }

  /** A removal that began splits no kept state and takes nothing a recoverable operation requires. */
  lemma BegunKeepsWhole(w: World, s: State, update: UpdateId, keys: set<Key>, orphans: seq<Content>, items: seq<Item>,
      k: Key)
    requires BeginRemoval(w, s, update, keys, orphans, items) != s
    ensures var after := BeginRemoval(w, s, update, keys, orphans, items);
      && (Live(after, k, {}) && after.rows[k].record.InlineState? ==> after.rows[k].record.occurrences !! keys)
      && (Live(after, k, {}) && after.rows[k].record.BulkState? ==>
            w.manifest(after.rows[k].record.membership).occurrences !! keys)
      && (Recoverable(after, k) ==> forall q :: q in after.frontiers[k].required - after.frontiers[k].staged.Keys ==>
            q in after.rows && after.rows[q].available)
  {
    var after := BeginRemoval(w, s, update, keys, orphans, items);
    MarkingRefusesIff(w, s, keys, true, items);
    if Live(after, k, {}) {
      assert Live(s, k, keys);
      HoldsIff(w, s.rows[k].record, keys);
    }
    if Recoverable(after, k) {
      assert Recoverable(s, k) && k !in keys && RequirementsOk(s, s.frontiers[k], keys);
    }
  }

  /** One removal is complete: each unfinished target is settled, everything else stands. */
  predicate SweptAs(before: map<UpdateId, Intent>, after: map<UpdateId, Intent>, update: UpdateId,
      protected: set<Address>, disk: set<Address>)
    requires update in before
  {
    && after.Keys == before.Keys && (forall u :: u in before && u != update ==> after[u] == before[u])
    && after[update].complete && after[update].keys == before[update].keys
    && after[update].targets.Keys == before[update].targets.Keys
    && forall a :: a in before[update].targets ==>
         if a in Unfinished(before[update]) then Settles(after[update].targets[a], a in protected, a in disk)
         else after[update].targets[a] == before[update].targets[a]
  }

  /** What a completed new removal has recorded and done, from the state it began in. */
  ghost predicate Removed(w: World, before: State, after: State, update: UpdateId, keys: set<Key>,
      orphans: seq<Content>)
  {
    && ScopeEnded(before.rows, after.rows, keys) && after.frontiers == before.frontiers
    && update in after.removals && after.removals[update].complete && after.removals[update].keys == keys
    && (forall a :: a in before.disk ==> (a !in after.disk <==> Removable(w, before, keys, orphans, a)))
    && (forall a :: a in after.removals[update].targets <==> Target(w, before, keys, orphans, a))
    && (forall a :: a in after.removals[update].targets ==>
          Settles(after.removals[update].targets[a], Needed(w, before, keys, a), a in before.disk))
  }

  class Maintenance {
    const w: World
    const faulty: set<Address>      // what cannot be deleted: the deletion raises
    var s: State
    var budget: Option<nat>
    ghost var actions: seq<Action>

    /** The ledger and the disk are where some run of atomic steps has brought them. */
    ghost predicate Valid() reads this { s == Run(w, EMPTY, actions) }

    constructor (w: World, faulty: set<Address>)
      ensures Valid() && s == EMPTY && this.w == w && this.faulty == faulty
    {
      this.w, this.faulty, s, budget, actions := w, faulty, EMPTY, None, [];
    }

    /** Take one atomic step, unless the process is killed first. */
    method Proceed(action: Action) returns (alive: bool)
      requires Valid()
      modifies this
      ensures Valid() && old(actions) <= actions
      ensures s == Apply(w, old(s), if alive then action else Crash)
      ensures !alive ==> old(budget).Some?
      ensures budget.Some? == old(budget).Some?
    {
      alive := budget != Some(0);
      var step := if alive then action else Crash;
      budget := if budget.Some? && alive then Some(budget.value - 1) else budget;
      RunConcat(w, EMPTY, actions, step);
      s := Apply(w, s, step);
      actions := actions + [step];
    }

    /** One target: a protected one is recorded as retained, any other deleted and then recorded; a deletion that raises
        is recorded as failed, and ends the sweep. */
    method DeleteTarget(update: UpdateId, protected: set<Address>, a: Address) returns (r: Outcome)
      requires Valid() && update in s.removals && a in Unfinished(s.removals[update])
      requires s.sweep == Some(Sweep(update, protected, None))
      modifies this
      ensures Valid() && old(actions) <= actions && budget.Some? == old(budget).Some? && !r.Refused?
      ensures s.rows == old(s.rows) && s.frontiers == old(s.frontiers)
      ensures r.Complete? ==>
                s.removals == Removal.Record(old(s), update, a, FinalStatus(protected, old(s.disk), a)).removals
                && s.sweep == old(s.sweep) && s.disk == if a in protected then old(s.disk) else old(s.disk) - {a}
      ensures r.Raised? ==>
          s.removals == Removal.Record(old(s), update, a, Failed).removals && s.sweep == None && s.disk == old(s.disk)
      ensures r.Killed? ==> s.removals == old(s.removals) && s.sweep == None && old(budget).Some?
      ensures r.Killed? ==> s.disk == old(s.disk) || (a !in protected && s.disk == old(s.disk) - {a})
      ensures !r.Killed? ==> (r.Raised? <==> a !in protected && a in faulty)
    {
      var alive;
      if a !in protected && a in faulty {
        alive := Proceed(FailDelete(a));
        return if alive then Raised else Killed;
      }
      alive := Proceed(Delete(a));
      if alive && a !in protected {
        alive := Proceed(RecordDeleted);
      }
      r := if alive then Complete else Killed;
    }

    /** The sweep so far, from where it began: exactly `done` is settled and its unprotected bytes are gone. */
    ghost predicate Progress(update: UpdateId, protected: set<Address>, before: State, done: set<Address>)
      reads this
    {
      && update in before.removals && done <= Unfinished(before.removals[update])
      && s.rows == before.rows && s.frontiers == before.frontiers
      && s.sweep == Some(Sweep(update, protected, None))
      && s.disk == before.disk - (done - protected)
      && s.removals == before.removals[update := Settled(before.removals[update], protected, before.disk, done)]
    }

    method SettleTarget(update: UpdateId, protected: set<Address>, a: Address, ghost before: State,
        ghost done: set<Address>)
      returns (r: Outcome)
      requires Valid() && Progress(update, protected, before, done) && a in Unfinished(before.removals[update]) - done
      modifies this
      ensures Valid() && old(actions) <= actions && budget.Some? == old(budget).Some? && !r.Refused?
      ensures r.Complete? ==> Progress(update, protected, before, done + {a})
      ensures !r.Complete? ==> s.rows == before.rows && s.frontiers == before.frontiers && s.sweep == None
      ensures !r.Complete? ==> s.disk == old(s.disk) || (a !in protected && s.disk == old(s.disk) - {a})
      ensures r.Killed? ==> budget.Some?
      ensures r.Raised? ==>
          update in s.removals && a in s.removals[update].targets && s.removals[update].targets[a] == Failed
      ensures !r.Killed? ==> (r.Raised? <==> a !in protected && a in faulty)
    {
      SettleOne(before.removals[update], protected, before.disk, done, a);
      r := DeleteTarget(update, protected, a);
      if r.Complete? {
        assert s.removals[update] == Settled(before.removals[update], protected, before.disk, done + {a});
      }
    }

    /** A target whose deletion raised is recorded as failed, for a resume to try again. */
    ghost predicate FailedTarget(update: UpdateId, protected: set<Address>) reads this {
      && update in s.removals
      && var targets := s.removals[update].targets;
         exists a :: a in faulty - protected && a in targets && targets[a] == Failed
    }

    /** The sweep is over: what is settled, and that it is complete, if no kill falls before the last commit. */
    method FinishSweep(update: UpdateId, protected: set<Address>, ghost before: State, ghost done: set<Address>)
        returns (r: Outcome)
      requires Valid() && Progress(update, protected, before, done) && done == Unfinished(before.removals[update])
      modifies this
      ensures Valid() && old(actions) <= actions && s.sweep == None && (r.Complete? || r.Killed?)
      ensures s.rows == before.rows && s.frontiers == before.frontiers && s.disk == before.disk - (done - protected)
      ensures r.Killed? ==> old(budget).Some?
      ensures r.Complete? ==>
        s.removals == before.removals[update :=
            Settled(before.removals[update], protected, before.disk, done).(complete := true)]
    {
      SettledAll(before.removals[update], protected, before.disk);
      var alive := Proceed(Finish);
      r := if alive then Complete else Killed;
    }

    /** Delete every pending target.  A kill or a deletion that raises leaves the rest pending, for a resume. */
    method DeletePending(update: UpdateId, protected: set<Address>) returns (r: Outcome)
      requires Valid() && update in s.removals && s.sweep == Some(Sweep(update, protected, None))
      modifies this
      ensures Valid() && old(actions) <= actions && s.sweep == None && !r.Refused?
      ensures s.rows == old(s.rows) && s.frontiers == old(s.frontiers)
      ensures s.disk <= old(s.disk) && old(s.disk) - s.disk <= Unfinished(old(s.removals[update])) - protected
      ensures r.Killed? ==> old(budget).Some?
      ensures r.Raised? ==> FailedTarget(update, protected)
      ensures !r.Killed? ==> (r.Complete? <==> (Unfinished(old(s.removals[update])) - protected) * faulty == {})
      ensures r.Complete? ==>
        var unfinished := Unfinished(old(s.removals[update]));
        && s.disk == old(s.disk) - (unfinished - protected)
        && s.removals == old(s.removals)[update :=
            Settled(old(s.removals[update]), protected, old(s.disk), unfinished).(complete := true)]
      ensures r.Complete? ==> SweptAs(old(s.removals), s.removals, update, protected, old(s.disk))
    {
      ghost var before, done: set<Address> := s, {};
      var pending := Unfinished(s.removals[update]);
      assert Settled(before.removals[update], protected, s.disk, {}) == before.removals[update];
      while pending != {}
        invariant Valid() && old(actions) <= actions && budget.Some? == old(budget).Some?
        invariant Progress(update, protected, before, done) && pending == Unfinished(before.removals[update]) - done
        invariant (done - protected) * faulty == {}
        decreases pending
      {
        var a :| a in pending;
        r := SettleTarget(update, protected, a, before, done);
        if !r.Complete? { return; }
        pending, done := pending - {a}, done + {a};
      }
      assert done == Unfinished(before.removals[update]);
      r := FinishSweep(update, protected, before, done);
    }

    /** Mark everything again without a scope, then finish the sweep; a complete removal is left alone. */
    method ResumeRemoval(update: UpdateId, items: seq<Item>) returns (r: Outcome)
      requires Valid() && s.sweep == None
      requires (set x | x in items) == MarkItems(s, {}, false)
      modifies this
      ensures Valid() && old(actions) <= actions && s.sweep == None
      ensures s.rows == old(s.rows) && s.frontiers == old(s.frontiers) && s.disk <= old(s.disk)
      ensures forall a :: a in old(s.disk) - s.disk ==>
          update in old(s.removals) && a in Unfinished(old(s.removals[update])) && !Needed(w, old(s), {}, a)
      ensures r.Refused? <==> ResumeRefuses(w, old(s), update, items)
      ensures r.Refused? ==> s == old(s)
      ensures r.Killed? ==> old(budget).Some?
      ensures r.Raised? ==> FailedTarget(update, {})
      ensures r.Complete? ==> update in old(s.removals) && update in s.removals && s.removals[update].complete
      ensures r.Complete? ==> s.removals[update].keys == old(s.removals[update]).keys
      ensures r.Complete? && !old(s.removals[update]).complete ==>
        && s.disk <= old(s.disk)
        && (forall a :: a in old(s.disk) ==>
              (a !in s.disk <==> a in Unfinished(old(s.removals[update])) && !Needed(w, old(s), {}, a)))
    {
      MarkingRefusesIff(w, s, {}, false, items);
      if update !in s.removals { return Refused; }
      if s.removals[update].complete { return Complete; }
      var index := new Index();
      var ok := index.Inventory(w, items, {});
      if !ok || !FrontiersOk(s, {}) { return Refused; }
      ResumeProtects(w, s, update, items);
      var protected := ProtectedIn(index.refs);
      var alive := Proceed(Resume(update, items));
      if !alive { return Killed; }
      r := DeletePending(update, protected);
    }

    /** A repeated removal must name the same scope and targets; it resumes. */
    method RetryRemoval(update: UpdateId, keys: set<Key>, orphans: seq<Content>, items: seq<Item>) returns (r: Outcome)
      requires Valid() && s.sweep == None && update in s.removals
      requires (set x | x in items) == MarkItems(s, {}, false)
      modifies this
      ensures Valid() && old(actions) <= actions && s.sweep == None && s.disk <= old(s.disk)
      ensures r.Refused? <==> RetryRefuses(w, old(s), update, keys, orphans, items)
      ensures r.Refused? ==> s == old(s)
      ensures r.Killed? ==> old(budget).Some?
      ensures r.Raised? ==> FailedTarget(update, {})
      ensures forall a :: a in old(s.disk) - s.disk ==> !Needed(w, s, {}, a)
      ensures r.Complete? ==> update in s.removals && s.removals[update].complete && s.removals[update].keys == keys
      ensures !r.Refused? ==> forall i :: 0 <= i < |orphans| ==>
          AddressOf(orphans[i]) in old(s.removals[update]).targets
    {
      if s.removals[update].keys != keys { return Refused; }
      if exists i :: 0 <= i < |orphans| && AddressOf(orphans[i]) !in s.removals[update].targets { return Refused; }
      ghost var before := s;
      r := ResumeRemoval(update, items);
      forall a | a in before.disk - s.disk ensures !Needed(w, s, {}, a) {
        if Needed(w, s, {}, a) { NeedsShrink(w, s, before, {}, a); }
      }
    }

    /** Explicit orphans become candidates; a protected one refuses the removal. */
    method AddOrphans(index: Index, orphans: seq<Content>) returns (ok: bool)
      modifies index
      ensures ok == (Mark(old(index.refs), Orphans(orphans)).Some? &&
                forall i :: 0 <= i < |orphans| ==> AddressOf(orphans[i]) !in ProtectedIn(old(index.refs)))
      ensures ok ==> Mark(old(index.refs), Orphans(orphans)) == Some(index.refs)
    {
      for i := 0 to |orphans|
        invariant forall j :: 0 <= j < i ==> AddressOf(orphans[j]) !in ProtectedIn(old(index.refs))
        invariant Mark(old(index.refs), Orphans(orphans)) == Mark(index.refs, Orphans(orphans)[i..])
        invariant ProtectedIn(index.refs) == ProtectedIn(old(index.refs))
      {
        if AddressOf(orphans[i]) in ProtectedIn(index.refs) { return false; }
        assert Orphans(orphans)[i..][1..] == Orphans(orphans)[i + 1..];
        ok := index.Add(orphans[i], false);
        if !ok { return; }
      }
      ok := true;
    }

    /** A repeated removal resumes.  A new one marks with its scope, refuses protected orphans, then records the intent
        and sweeps. */
    method RemoveUnderPolicy(update: UpdateId, keys: set<Key>, orphans: seq<Content>, items: seq<Item>)
        returns (r: Outcome)
      requires Valid() && s.sweep == None
      requires (set x | x in items) == if update in s.removals then MarkItems(s, {}, false)
          else MarkItems(s, keys, true)
      modifies this
      ensures Valid() && old(actions) <= actions && s.sweep == None && s.disk <= old(s.disk)
      ensures r.Refused? <==>
        if update in old(s.removals) then RetryRefuses(w, old(s), update, keys, orphans, items)
            else NewRefuses(w, old(s), keys, orphans, items)
      ensures r.Refused? ==> s == old(s)
      ensures r.Killed? ==> old(budget).Some?
      ensures r.Raised? ==> FailedTarget(update, {})
      ensures forall a :: a in old(s.disk) - s.disk ==> !Needed(w, s, {}, a)
      ensures r.Complete? ==> update in s.removals && s.removals[update].complete && s.removals[update].keys == keys
      ensures update !in old(s.removals) ==> forall a :: a in old(s.disk) - s.disk ==>
          Removable(w, old(s), keys, orphans, a)
      ensures update !in old(s.removals) && (r.Raised? || (r.Killed? && s.rows != old(s.rows))) ==>
          ScopeEnded(old(s.rows), s.rows, keys)
      ensures r.Complete? && update !in old(s.removals) ==> Removed(w, old(s), s, update, keys, orphans)
    {
      if update in s.removals {
        r := RetryRemoval(update, keys, orphans, items);
        return;
      }
      r := RemoveNew(update, keys, orphans, items);
    }

    /** Every check of a new removal, then the removal. */
    method RemoveNew(update: UpdateId, keys: set<Key>, orphans: seq<Content>, items: seq<Item>) returns (r: Outcome)
      requires Valid() && s.sweep == None && update !in s.removals && (set x | x in items) == MarkItems(s, keys, true)
      modifies this
      ensures Valid() && old(actions) <= actions && s.sweep == None && s.disk <= old(s.disk)
      ensures r.Refused? <==> NewRefuses(w, old(s), keys, orphans, items)
      ensures r.Refused? ==> s == old(s)
      ensures (r.Killed? ==> old(budget).Some?) && (r.Raised? ==> FailedTarget(update, {}))
      ensures forall a :: a in old(s.disk) - s.disk ==>
          !Needed(w, s, {}, a) && Removable(w, old(s), keys, orphans, a)
      ensures r.Raised? || (r.Killed? && s.rows != old(s.rows)) ==> ScopeEnded(old(s.rows), s.rows, keys)
      ensures r.Complete? ==> Removed(w, old(s), s, update, keys, orphans)
    {
      NewRefusesIff(w, s, keys, orphans, items);
      var index := new Index();
      var ok := index.Inventory(w, items, keys);
      if !ok || !FrontiersOk(s, keys) || !(forall k :: k in keys ==> k in s.rows && s.rows[k].retained) {
        return Refused;
      }
      ok := AddOrphans(index, orphans);
      if !ok { return Refused; }
      if keys == {} && (forall a :: a in index.refs ==> !index.refs[a].candidate) { return Refused; }
      r := SweepNew(update, keys, orphans, items, index.refs);
    }

    /** Record the intent, then delete what the marking left unprotected. */
    method SweepNew(update: UpdateId, keys: set<Key>, orphans: seq<Content>, items: seq<Item>, u: Table)
        returns (r: Outcome)
      requires Valid() && s.sweep.None? && update !in s.removals && forall k :: k in keys ==>
          k in s.rows && s.rows[k].retained
      requires (set x | x in items) == MarkItems(s, keys, true) && FrontiersOk(s, keys)
      requires InventoryOf(w, map[], items, keys).Some?
      requires var t := InventoryOf(w, map[], items, keys).value;
        Mark(t, Orphans(orphans)) == Some(u) && forall i :: 0 <= i < |orphans| ==>
            AddressOf(orphans[i]) !in ProtectedIn(t)
      requires keys != {} || exists a :: a in u && u[a].candidate
      modifies this
      ensures Valid() && old(actions) <= actions && s.sweep == None && s.disk <= old(s.disk) && !r.Refused?
      ensures (r.Killed? ==> old(budget).Some?) && (r.Raised? ==> FailedTarget(update, {}))
      ensures forall a :: a in old(s.disk) - s.disk ==>
          !Needed(w, s, {}, a) && Removable(w, old(s), keys, orphans, a)
      ensures r.Raised? || (r.Killed? && s.rows != old(s.rows)) ==> ScopeEnded(old(s.rows), s.rows, keys)
      ensures r.Complete? ==> Removed(w, old(s), s, update, keys, orphans)
    {
      BeginProtects(w, s, update, keys, orphans, items, u);
      var alive := Proceed(Begin(update, keys, orphans, items));
      if !alive { return Killed; }
      ghost var began := s;
      r := DeletePending(update, ProtectedIn(u));
      forall a | a in old(s.disk) - s.disk ensures !Needed(w, s, {}, a) {
        if Needed(w, s, {}, a) { NeedsShrink(w, s, began, {}, a); }
      }
    }
  }
}
