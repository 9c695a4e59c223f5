/** Removing retained bytes: marking, deleting, crashing and resuming. */
module Removal {
  // One action is one atomic ledger transaction or one physical deletion.  A
  // removal holds the content guard exclusively from marking to the end of its
  // sweep, so publications fall only before it, after it, or between a crash and
  // the resume.  An action that is not enabled changes nothing; a run is any
  // sequence of actions.

  import opened Prelude
  import opened PhysicalIndex

  type UpdateId = string

  /** A ledger row; staged rows are neither retained nor available. */
  datatype Entry = Entry(record: Record, layer: Option<LayerId>, retained: bool, available: bool)

  /** What an execution's owner can still recover: its journal or checkpoint and what that names. */
  datatype Frontier = Frontier(content: Ref, required: set<Key>, staged: map<Key, Record>)

  datatype Status = Pending | Deleted | Absent | Retained | Failed

  datatype Intent = Intent(keys: set<Key>, targets: map<Address, Status>, complete: bool)

  /** A sweep in progress; `deleting` is the deletion not yet recorded. */
  datatype Sweep = Sweep(update: UpdateId, protected: set<Address>, deleting: Option<(Address, bool)>)

  datatype State = State(
    rows: map<Key, Entry>,
    frontiers: map<Key, Frontier>,
    disk: set<Address>,
    removals: map<UpdateId, Intent>,
    sweep: Option<Sweep>)

  datatype Action =
    | Write(addresses: set<Address>)                   // a session stores bytes before committing
    | Commit(batch: map<Key, Entry>)                   // a publication, a staging, or a restored row
    | RecordFrontier(execution: Key, frontier: Frontier)
    | DropFrontier(execution: Key)                     // published, superseded or abandoned
    | Begin(update: UpdateId, keys: set<Key>, orphans: seq<Content>, items: seq<Item>)
    | Resume(update: UpdateId, items: seq<Item>)
    | Delete(a: Address)
    | RecordDeleted
    | FailDelete(a: Address)
    | Finish
    | Crash

  const EMPTY := State(map[], map[], {}, map[], None)

  // ----- what is marked, and what is needed -----

  predicate Recoverable(s: State, e: Key) { e in s.frontiers && e in s.rows && s.rows[e].available }

  predicate Live(s: State, k: Key, excluded: set<Key>) { k in s.rows && s.rows[k].available && k !in excluded }

  function LayerItems(s: State, keys: set<Key>, protected: bool): set<Item> {
    set k | k in keys && k in s.rows && s.rows[k].layer.Some? :: LayerItem(s.rows[k].layer.value, protected)
  }

  function RecordItems(s: State, keys: set<Key>, protected: bool): set<Item> {
    set k | k in keys && k in s.rows :: RecordItem(s.rows[k].record, protected)
  }

  function StagedItems(f: Frontier): set<Item> { set k | k in f.staged :: RecordItem(f.staged[k], true) }

  /** What `inventory_recovery` marks for one recoverable execution. */
  function FrontierMarks(s: State, f: Frontier): set<Item> {
    {JournalItem(f.content)} + LayerItems(s, f.required, true) + StagedItems(f)
  }

  function AvailableKeys(s: State): set<Key> { set k | k in s.rows && s.rows[k].available }

  /** Everything `_inventory` marks, as a set: the order of reading does not matter. */
  function MarkItems(s: State, excluded: set<Key>, candidates: bool): set<Item> {
    var kept := AvailableKeys(s) - excluded;
    var scoped := if candidates then AvailableKeys(s) * excluded else {};
    LayerItems(s, scoped, false) + RecordItems(s, scoped, false)
    + LayerItems(s, kept, true) + RecordItems(s, kept, true)
    + (set e, item | e in s.frontiers.Keys && Recoverable(s, e) && e !in excluded &&
        item in FrontierMarks(s, s.frontiers[e]) :: item)
  }

  /** Marking refuses a recoverable operation whose requirements are removed or unavailable. */
  predicate FrontiersOk(s: State, excluded: set<Key>) {
    forall e :: e in s.frontiers && Recoverable(s, e) && e !in excluded ==> RequirementsOk(s, s.frontiers[e], excluded)
  }

  predicate RequirementsOk(s: State, f: Frontier, excluded: set<Key>) {
    f.required !! excluded && forall k :: k in f.required && k !in f.staged ==> k in s.rows && s.rows[k].available
  }

  /** An available row outside `excluded`, or a recoverable execution's journal with all it requires, needs this
      address. */
  ghost predicate Needed(w: World, s: State, excluded: set<Key>, a: Address) {
    || (exists k :: Live(s, k, excluded) && RowNeeds(w, s.rows[k], a))
    || (exists e :: e in s.frontiers && Recoverable(s, e) && e !in excluded && FrontierNeeds(w, s, s.frontiers[e], a))
  }

  ghost predicate RowNeeds(w: World, r: Entry, a: Address) {
    RecordReaches(w, r.record, a) || LayerNeeds(w, r, a)
  }

  ghost predicate LayerNeeds(w: World, r: Entry, a: Address) {
    r.layer.Some? && LayerReaches(w, r.layer.value, a)
  }

  ghost predicate FrontierNeeds(w: World, s: State, f: Frontier, a: Address) {
    || a == Address(Blobs, f.content.locator)
    || (exists k :: k in f.staged && RecordReaches(w, f.staged[k], a))
    || (exists k :: k in f.required && k in s.rows && LayerNeeds(w, s.rows[k], a))
    || (exists k :: k in f.required && k !in f.staged && k in s.rows && RowNeeds(w, s.rows[k], a))
  }

  /** A row of the removal scope reaches this address. */
  ghost predicate ScopeReaches(w: World, s: State, keys: set<Key>, a: Address) {
    exists k :: k in keys && Live(s, k, {}) && RowNeeds(w, s.rows[k], a)
  }

  /** A marking protects exactly the needed addresses, where it does not refuse. */
  lemma MarkingProtects(w: World, s: State, excluded: set<Key>, candidates: bool, items: seq<Item>, a: Address)
    requires (set x | x in items) == MarkItems(s, excluded, candidates)
    requires FrontiersOk(s, excluded)
    ensures SomeItemNames(w, items, a, true) <==> Needed(w, s, excluded, a)
  {
    if Needed(w, s, excluded, a) {
      var item := ProtectingItem(w, s, excluded, candidates, a);
      assert item in items;
      var i :| 0 <= i < |items| && items[i] == item;
      assert Protects(items[i]) && ItemReaches(w, items[i], a);
    }
    if i :| 0 <= i < |items| && Protects(items[i]) && ItemReaches(w, items[i], a) {
      assert items[i] in (set x | x in items);
      ItemMeans(w, s, excluded, candidates, items[i], a);
    }
  }

  /** Its candidates are exactly what the scope reaches. */
  lemma MarkingCandidates(w: World, s: State, keys: set<Key>, items: seq<Item>, a: Address)
    requires (set x | x in items) == MarkItems(s, keys, true)
    ensures SomeItemNames(w, items, a, false) <==> ScopeReaches(w, s, keys, a)
  {
    if k :| k in keys && Live(s, k, {}) && RowNeeds(w, s.rows[k], a) {
      var scoped := AvailableKeys(s) * keys;
      assert k in scoped;
      var item := RecordItem(s.rows[k].record, false);
      if RecordReaches(w, s.rows[k].record, a) {
        assert item in RecordItems(s, scoped, false);
      } else {
        item := LayerItem(s.rows[k].layer.value, false);
        assert item in LayerItems(s, scoped, false);
      }
      assert item in items;
      var i :| 0 <= i < |items| && items[i] == item;
      assert !Protects(items[i]) && ItemReaches(w, items[i], a);
    }
    if i :| 0 <= i < |items| && !Protects(items[i]) && ItemReaches(w, items[i], a) {
      assert items[i] in (set x | x in items);
      ItemMeans(w, s, keys, true, items[i], a);
    }
  }

  /** What a marked item reaches is needed if it protects, and reached by the scope if not. */
  lemma ItemMeans(w: World, s: State, excluded: set<Key>, candidates: bool, item: Item, a: Address)
    requires item in MarkItems(s, excluded, candidates) && ItemReaches(w, item, a)
    ensures if Protects(item) then Needed(w, s, excluded, a) else ScopeReaches(w, s, excluded, a)
  {
    if e :| e in s.frontiers.Keys && Recoverable(s, e) && e !in excluded && item in FrontierMarks(s, s.frontiers[e]) {
      FrontierItemNeeds(w, s, s.frontiers[e], item, a);
    } else {
      RowItemMeans(w, s, excluded, item, a);
    }
  }

  lemma FrontierItemNeeds(w: World, s: State, f: Frontier, item: Item, a: Address)
    requires item in FrontierMarks(s, f) && ItemReaches(w, item, a)
    ensures Protects(item) && FrontierNeeds(w, s, f, a)
  {
  }

  lemma RowItemMeans(w: World, s: State, excluded: set<Key>, item: Item, a: Address)
    requires var kept, scoped := AvailableKeys(s) - excluded, AvailableKeys(s) * excluded;
      || item in LayerItems(s, kept, true) + RecordItems(s, kept, true)
      || item in LayerItems(s, scoped, false) + RecordItems(s, scoped, false)
    requires ItemReaches(w, item, a)
    ensures if Protects(item) then Needed(w, s, excluded, a) else ScopeReaches(w, s, excluded, a)
  {
    var k :| k in s.rows && s.rows[k].available && (k in excluded <==> !Protects(item)) &&
        (item == RecordItem(s.rows[k].record, Protects(item)) ||
         (s.rows[k].layer.Some? && item == LayerItem(s.rows[k].layer.value, Protects(item))));
    assert RowNeeds(w, s.rows[k], a) && Live(s, k, {});
    if Protects(item) { assert Live(s, k, excluded); }
  }

  lemma ProtectingItem(w: World, s: State, excluded: set<Key>, candidates: bool, a: Address) returns (item: Item)
    requires FrontiersOk(s, excluded) && Needed(w, s, excluded, a)
    ensures item in MarkItems(s, excluded, candidates) && Protects(item) && ItemReaches(w, item, a)
  {
    if k :| Live(s, k, excluded) && RowNeeds(w, s.rows[k], a) {
      item := RowItem(w, s, excluded, candidates, k, a);
    } else {
      var e :| e in s.frontiers && Recoverable(s, e) && e !in excluded && FrontierNeeds(w, s, s.frontiers[e], a);
      var f := s.frontiers[e];
      assert RequirementsOk(s, f, excluded);
      if a == Address(Blobs, f.content.locator) {
        item := JournalItem(f.content);
      } else if k :| k in f.staged && RecordReaches(w, f.staged[k], a) {
        item := RecordItem(f.staged[k], true);
      } else if k :| k in f.required && k in s.rows && LayerNeeds(w, s.rows[k], a) {
        item := LayerItem(s.rows[k].layer.value, true);
      } else {
        assert false;  // a required row is available and outside the scope, so it was found above
      }
      assert item in FrontierMarks(s, f);
    }
  }

  lemma RowItem(w: World, s: State, excluded: set<Key>, candidates: bool, k: Key, a: Address) returns (item: Item)
    requires Live(s, k, excluded) && RowNeeds(w, s.rows[k], a)
    ensures item in MarkItems(s, excluded, candidates) && Protects(item) && ItemReaches(w, item, a)
  {
    var kept := AvailableKeys(s) - excluded;
    assert k in kept;
    if RecordReaches(w, s.rows[k].record, a) {
      item := RecordItem(s.rows[k].record, true);
      assert item in RecordItems(s, kept, true);
    } else {
      item := LayerItem(s.rows[k].layer.value, true);
      assert item in LayerItems(s, kept, true);
    }
  }

  /** A state with a member in the scope. */
  predicate HoldsMember(w: World, r: Record, keys: set<Key>) {
    exists m :: m in keys &&
        ((r.InlineState? && m in r.occurrences) || (r.BulkState? && m in w.manifest(r.membership).occurrences))
  }

  predicate StagedHolds(w: World, f: Frontier, keys: set<Key>) {
    exists k :: k in f.staged && HoldsMember(w, f.staged[k], keys)
  }

  /** A state that is kept, or that a kept recoverable operation has staged, would lose a member. */
  predicate SplitsState(w: World, s: State, keys: set<Key>) {
    || (exists k :: k in s.rows && Live(s, k, keys) && HoldsMember(w, s.rows[k].record, keys))
    || (exists e :: e in s.frontiers && Recoverable(s, e) && e !in keys && StagedHolds(w, s.frontiers[e], keys))
  }

  /** A marking's items refuse the scope exactly when removing it would split a state. */
  lemma SplitsIff(w: World, s: State, keys: set<Key>, candidates: bool, items: seq<Item>)
    requires (set x | x in items) == MarkItems(s, keys, candidates)
    ensures SomeRefuses(w, items, keys) <==> SplitsState(w, s, keys)
  {
    if i :| 0 <= i < |items| && Refuses(w, items[i], keys) {
      assert items[i] in (set x | x in items);
      RefusingSplits(w, s, keys, candidates, items[i]);
    }
    if SplitsState(w, s, keys) {
      var item := SplitItem(w, s, keys, candidates);
      assert item in items;
      var i :| 0 <= i < |items| && items[i] == item;
    }
  }

  lemma HoldsIff(w: World, r: Record, keys: set<Key>)
    ensures HoldsMember(w, r, keys) <==> Members(w, r) * keys != {}
  {
    if HoldsMember(w, r, keys) {
      var m :| m in keys && m in Members(w, r) * keys;
    } else {
      assert Members(w, r) * keys == {};
    }
  }

  lemma SplitItem(w: World, s: State, keys: set<Key>, candidates: bool) returns (item: Item)
    requires SplitsState(w, s, keys)
    ensures item in MarkItems(s, keys, candidates) && Refuses(w, item, keys)
  {
    var kept := AvailableKeys(s) - keys;
    if k :| k in s.rows && Live(s, k, keys) && HoldsMember(w, s.rows[k].record, keys) {
      item := RecordItem(s.rows[k].record, true);
      HoldsIff(w, s.rows[k].record, keys);
      assert k in kept && item in RecordItems(s, kept, true);
    } else {
      var e :| e in s.frontiers && Recoverable(s, e) && e !in keys && StagedHolds(w, s.frontiers[e], keys);
      var f := s.frontiers[e];
      var k :| k in f.staged && HoldsMember(w, f.staged[k], keys);
      item := RecordItem(f.staged[k], true);
      HoldsIff(w, f.staged[k], keys);
      assert item in FrontierMarks(s, f);
    }
  }

  lemma RefusingSplits(w: World, s: State, keys: set<Key>, candidates: bool, item: Item)
    requires item in MarkItems(s, keys, candidates) && Refuses(w, item, keys)
    ensures SplitsState(w, s, keys)
  {
    HoldsIff(w, item.record, keys);
    if e :| e in s.frontiers.Keys && Recoverable(s, e) && e !in keys && item in FrontierMarks(s, s.frontiers[e]) {
      var k :| k in s.frontiers[e].staged && item.record == s.frontiers[e].staged[k];
      assert StagedHolds(w, s.frontiers[e], keys);
    } else {
      var k :| k in AvailableKeys(s) - keys && item.record == s.rows[k].record;
      assert Live(s, k, keys);
    }
  }

  // ----- the steps -----

  predicate OnDisk(w: World, s: State, item: Item) {
    forall i :: 0 <= i < |Expand(w, item)| ==> AddressOf(Expand(w, item)[i].0) in s.disk
  }

  /** The publisher checks the retained bytes of every row it commits. */
  predicate RowOnDisk(w: World, s: State, r: Entry) { OnDisk(w, s, RecordItem(r.record, true)) && LayerOnDisk(w, s, r) }

  predicate LayerOnDisk(w: World, s: State, r: Entry) { r.layer.Some? ==> OnDisk(w, s, LayerItem(r.layer.value, true)) }

  predicate FrontierOnDisk(w: World, s: State, f: Frontier) {
    && Address(Blobs, f.content.locator) in s.disk
    && (forall k :: k in f.staged ==> OnDisk(w, s, RecordItem(f.staged[k], true)))
    && (forall k :: k in f.required && k in s.rows ==>
          if k in f.staged then LayerOnDisk(w, s, s.rows[k]) else RowOnDisk(w, s, s.rows[k]))
  }

  function ProtectedIn(t: Table): set<Address> { set a | a in t && t[a].protected }

  function Orphans(contents: seq<Content>): seq<Obligation> {
    seq(|contents|, i requires 0 <= i < |contents| => (contents[i], false))
  }

  function Unfinished(intent: Intent): set<Address> {
    set a | a in intent.targets && (intent.targets[a] == Pending || intent.targets[a] == Failed)
  }

  function Record(s: State, update: UpdateId, a: Address, status: Status): State
    requires update in s.removals
  {
    s.(removals := s.removals[update := s.removals[update].(targets := s.removals[update].targets[a := status])])
  }

  predicate Sweeping(s: State) { s.sweep.Some? && s.sweep.value.update in s.removals }

  function Apply(w: World, s: State, action: Action): State {
    match action
    case Write(addresses) => if s.sweep.None? then s.(disk := s.disk + addresses) else s
    case Commit(batch) =>
      if s.sweep.None? && forall k :: k in batch ==> RowOnDisk(w, s, batch[k]) then s.(rows := s.rows + batch) else s
    case RecordFrontier(e, f) =>
      if s.sweep.None? && FrontierOnDisk(w, s, f) then s.(frontiers := s.frontiers[e := f]) else s
    case DropFrontier(e) => if s.sweep.None? then s.(frontiers := s.frontiers - {e}) else s
    case Begin(update, keys, orphans, items) => BeginRemoval(w, s, update, keys, orphans, items)
    case Resume(update, items) =>
      if s.sweep.None? && update in s.removals && !s.removals[update].complete
         && (set x | x in items) == MarkItems(s, {}, false) && FrontiersOk(s, {})
      then match InventoryOf(w, map[], items, {})
        case None => s
        case Some(t) => s.(sweep := Some(Sweep(update, ProtectedIn(t), None)))
      else s
    case Delete(a) =>
      if Sweeping(s) && s.sweep.value.deleting.None? && a in Unfinished(s.removals[s.sweep.value.update])
      then DeleteOne(s, s.sweep.value, a) else s
    case RecordDeleted =>
      if Sweeping(s) && s.sweep.value.deleting.Some?
      then var (a, existed) := s.sweep.value.deleting.value;
           Record(s, s.sweep.value.update, a, if existed then Deleted
               else Absent).(sweep := Some(s.sweep.value.(deleting := None)))
      else s
    case FailDelete(a) =>
      if Sweeping(s) && s.sweep.value.deleting.None? && a in Unfinished(s.removals[s.sweep.value.update])
      then Record(s, s.sweep.value.update, a, Failed).(sweep := None) else s
    case Finish =>
      if Sweeping(s) && s.sweep.value.deleting.None? && Unfinished(s.removals[s.sweep.value.update]) == {}
      then var u := s.sweep.value.update;
           s.(removals := s.removals[u := s.removals[u].(complete := true)], sweep := None)
      else s
    case Crash => s.(sweep := None)
  }

  function Unavailable(rows: map<Key, Entry>, keys: set<Key>): map<Key, Entry> {
    map k | k in rows :: if k in keys then rows[k].(available := false) else rows[k]
  }

  /** Mark, refuse protected orphans, then atomically end availability and record every candidate as pending. */
  function BeginRemoval(w: World, s: State, update: UpdateId, keys: set<Key>, orphans: seq<Content>,
      items: seq<Item>): State {
    if s.sweep.Some? || update in s.removals || !(forall k :: k in keys ==> k in s.rows && s.rows[k].retained)
       || (set x | x in items) != MarkItems(s, keys, true) || !FrontiersOk(s, keys) then s
    else match InventoryOf(w, map[], items, keys)
      case None => s
      case Some(t) =>
        if exists i :: 0 <= i < |orphans| && AddressOf(orphans[i]) in ProtectedIn(t) then s
        else match Mark(t, Orphans(orphans))
          case None => s
          case Some(u) =>
            var targets := map a | a in u && u[a].candidate :: Pending;
            if keys == {} && targets == map[] then s
            else s.(rows := Unavailable(s.rows, keys),
                    removals := s.removals[update := Intent(keys, targets, false)],
                    sweep := Some(Sweep(update, ProtectedIn(u), None)))
  }

  /** A protected target is kept and recorded as retained; any other is deleted, then recorded. */
  function DeleteOne(s: State, sweep: Sweep, a: Address): State
    requires sweep.update in s.removals
  {
    if a in sweep.protected then Record(s, sweep.update, a, Retained)
    else s.(disk := s.disk - {a}, sweep := Some(sweep.(deleting := Some((a, a in s.disk)))))
  }

  function Run(w: World, s: State, actions: seq<Action>): State
    decreases |actions|
  {
    if actions == [] then s else Apply(w, Run(w, s, actions[..|actions| - 1]), actions[|actions| - 1])
  }

  // ----- safety -----

  /** While a sweep runs, its marking protects everything that is needed. */
  ghost predicate Guarded(w: World, s: State) {
    s.sweep.Some? ==> forall a :: Needed(w, s, {}, a) ==> a in s.sweep.value.protected
  }

  /** Everything that is needed is on disk. */
  ghost predicate Stored(w: World, s: State) { forall a :: Needed(w, s, {}, a) ==> a in s.disk }

  /** Fewer available rows and frontiers, over the same bytes, need no more. */
  lemma NeedsShrink(w: World, t: State, s: State, excluded: set<Key>, a: Address)
    requires t.rows.Keys == s.rows.Keys && t.frontiers.Keys <= s.frontiers.Keys
    requires forall e :: e in t.frontiers ==> t.frontiers[e] == s.frontiers[e]
    requires forall k :: k in t.rows ==> t.rows[k].record == s.rows[k].record && t.rows[k].layer == s.rows[k].layer
    requires forall k :: k in t.rows && t.rows[k].available ==> s.rows[k].available && k !in excluded
    requires Needed(w, t, {}, a)
    ensures Needed(w, s, excluded, a)
  {
    if k :| Live(t, k, {}) && RowNeeds(w, t.rows[k], a) {
      assert Live(s, k, excluded) && RowNeeds(w, s.rows[k], a);
    } else {
      var e :| e in t.frontiers && Recoverable(t, e) && e !in {} && FrontierNeeds(w, t, t.frontiers[e], a);
      FrontierNeedsSame(w, t, s, t.frontiers[e], a);
      assert Recoverable(s, e);
    }
  }

  lemma FrontierNeedsSame(w: World, t: State, s: State, f: Frontier, a: Address)
    requires t.rows.Keys == s.rows.Keys
    requires forall k :: k in t.rows ==> t.rows[k].record == s.rows[k].record && t.rows[k].layer == s.rows[k].layer
    requires FrontierNeeds(w, t, f, a)
    ensures FrontierNeeds(w, s, f, a)
  {
    if k :| k in f.required && k !in f.staged && k in t.rows && RowNeeds(w, t.rows[k], a) {
      assert RowNeeds(w, s.rows[k], a);
    }
  }

  lemma BeginGuards(w: World, s: State, update: UpdateId, keys: set<Key>, orphans: seq<Content>, items: seq<Item>)
    requires BeginRemoval(w, s, update, keys, orphans, items) != s
    ensures Guarded(w, BeginRemoval(w, s, update, keys, orphans, items))
  {
    var after := BeginRemoval(w, s, update, keys, orphans, items);
    var t := InventoryOf(w, map[], items, keys).value;
    forall a | Needed(w, after, {}, a) ensures a in after.sweep.value.protected {
      NeedsShrink(w, after, s, keys, a);
      MarkingProtects(w, s, keys, true, items, a);
      InventoryMeans(w, map[], items, keys, a);
      MarkMeans(t, Orphans(orphans), a);
    }
  }

  lemma ResumeGuards(w: World, s: State, update: UpdateId, items: seq<Item>)
    requires Apply(w, s, Resume(update, items)) != s
    ensures Guarded(w, Apply(w, s, Resume(update, items)))
  {
    var after := Apply(w, s, Resume(update, items));
    forall a | Needed(w, after, {}, a) ensures a in after.sweep.value.protected {
      NeedsShrink(w, after, s, {}, a);
      MarkingProtects(w, s, {}, false, items, a);
      InventoryMeans(w, map[], items, {}, a);
    }
  }

  lemma GuardedStep(w: World, s: State, action: Action)
    requires Guarded(w, s)
    ensures Guarded(w, Apply(w, s, action))
  {
    var t := Apply(w, s, action);
    if t != s && t.sweep.Some? {
      if action.Begin? {
        BeginGuards(w, s, action.update, action.keys, action.orphans, action.items);
      } else if action.Resume? {
        ResumeGuards(w, s, action.update, action.items);
      } else {
        assert t.sweep.value.protected == s.sweep.value.protected;
        forall a | Needed(w, t, {}, a) ensures a in t.sweep.value.protected {
          NeedsShrink(w, t, s, {}, a);
        }
      }
    }
  }

  lemma {:induction false} GuardedRun(w: World, actions: seq<Action>)
    ensures Guarded(w, Run(w, EMPTY, actions))
    decreases |actions|
  {
    if actions != [] {
      var n := |actions| - 1;
      GuardedRun(w, actions[..n]);
      GuardedStep(w, Run(w, EMPTY, actions[..n]), actions[n]);
    }
  }

  /** After any run, no step deletes bytes that an available row outside the removal, a source
      layer, or a recoverable journal or checkpoint needs; and only pending targets are deleted. */
  lemma NeverDeletesNeeded(w: World, actions: seq<Action>, action: Action, a: Address)
    requires var s := Run(w, EMPTY, actions); a in s.disk && a !in Apply(w, s, action).disk
    ensures var s := Run(w, EMPTY, actions);
      && !Needed(w, s, {}, a) && !Needed(w, Apply(w, s, action), {}, a)
      && action == Delete(a) && Sweeping(s) && a in Unfinished(s.removals[s.sweep.value.update])
  {
    var s := Run(w, EMPTY, actions);
    var t := Apply(w, s, action);
    GuardedRun(w, actions);
    assert t == DeleteOne(s, s.sweep.value, a);
    if Needed(w, t, {}, a) { NeedsShrink(w, t, s, {}, a); }
  }

  // ----- what stays on disk -----

  /** A commit makes an execution available that had been abandoned with a journal or checkpoint, whose bytes are
      gone. */
  predicate RevivesLostFrontier(w: World, s: State, action: Action) {
    && action.Commit? && s.sweep.None? && (forall k :: k in action.batch ==> RowOnDisk(w, s, action.batch[k]))
    && exists e :: e in s.frontiers && Revived(s, action.batch, e)
         && !FrontierOnDisk(w, s.(rows := s.rows + action.batch), s.frontiers[e])
  }

  /** The batch makes this execution available, which it was not. */
  predicate Revived(s: State, batch: map<Key, Entry>, e: Key) { e in batch && batch[e].available && !Recoverable(s, e) }

  ghost predicate RevivedNeeds(w: World, s: State, t: State, e: Key, a: Address) {
    e in t.frontiers && Recoverable(t, e) && !Recoverable(s, e) && FrontierNeeds(w, t, t.frontiers[e], a)
  }

  /** The publisher's check of an item covers exactly what the item reaches. */
  lemma OnDiskIff(w: World, s: State, item: Item)
    ensures OnDisk(w, s, item) <==> forall a :: ItemReaches(w, item, a) ==> a in s.disk
  {
    var obligations, p := Expand(w, item), Protects(item);
    forall a | ItemReaches(w, item, a) ensures Names(obligations, a, p) { ExpandReaches(w, item, a, p); }
    forall i | 0 <= i < |obligations| ensures ItemReaches(w, item, AddressOf(obligations[i].0)) {
      ExpandReaches(w, item, AddressOf(obligations[i].0), obligations[i].1);
    }
  }

  lemma ReachedOnDisk(w: World, s: State, item: Item, a: Address)
    requires OnDisk(w, s, item) && ItemReaches(w, item, a)
    ensures a in s.disk
  {
    OnDiskIff(w, s, item);
  }

  /** A committed row's bytes are on disk; every other row is as it was. */
  lemma CommitNeeds(w: World, s: State, batch: map<Key, Entry>, a: Address)
    requires s.sweep.None? && forall k :: k in batch ==> RowOnDisk(w, s, batch[k])
    requires var t := s.(rows := s.rows + batch); Needed(w, t, {}, a)
    ensures var t := s.(rows := s.rows + batch);
        a in s.disk || Needed(w, s, {}, a) || exists e :: RevivedNeeds(w, s, t, e, a)
  {
    var t := s.(rows := s.rows + batch);
    if k :| Live(t, k, {}) && RowNeeds(w, t.rows[k], a) {
      if k in batch { RowStored(w, s, batch[k], a); } else { assert Live(s, k, {}); }
    } else {
      var e :| e in t.frontiers && Recoverable(t, e) && e !in {} && FrontierNeeds(w, t, t.frontiers[e], a);
      if Recoverable(s, e) {
        CommitFrontier(w, s, batch, t.frontiers[e], a);
      } else {
        assert RevivedNeeds(w, s, t, e, a);
      }
    }
  }

  lemma RowStored(w: World, s: State, r: Entry, a: Address)
    requires RowOnDisk(w, s, r) && RowNeeds(w, r, a)
    ensures a in s.disk
  {
    if RecordReaches(w, r.record, a) { ReachedOnDisk(w, s, RecordItem(r.record, true), a); }
    else { ReachedOnDisk(w, s, LayerItem(r.layer.value, true), a); }
  }

  lemma CommitFrontier(w: World, s: State, batch: map<Key, Entry>, f: Frontier, a: Address)
    requires forall k :: k in batch ==> RowOnDisk(w, s, batch[k])
    requires FrontierNeeds(w, s.(rows := s.rows + batch), f, a)
    ensures a in s.disk || FrontierNeeds(w, s, f, a)
  {
    var t := s.(rows := s.rows + batch);
    if k :| k in f.required && k in t.rows && LayerNeeds(w, t.rows[k], a) {
      if k in batch { ReachedOnDisk(w, s, LayerItem(batch[k].layer.value, true), a); }
    } else if k :| k in f.required && k !in f.staged && k in t.rows && RowNeeds(w, t.rows[k], a) {
      if k in batch { RowStored(w, s, batch[k], a); }
    }
  }

  lemma RecordedFrontierNeeds(w: World, s: State, f: Frontier, a: Address)
    requires FrontierOnDisk(w, s, f) && FrontierNeeds(w, s, f, a)
    ensures a in s.disk
  {
    if k :| k in f.staged && RecordReaches(w, f.staged[k], a) {
      ReachedOnDisk(w, s, RecordItem(f.staged[k], true), a);
    } else if k :| k in f.required && k in s.rows && LayerNeeds(w, s.rows[k], a) {
      ReachedOnDisk(w, s, LayerItem(s.rows[k].layer.value, true), a);
    } else if k :| k in f.required && k !in f.staged && k in s.rows && RowNeeds(w, s.rows[k], a) {
      RowStored(w, s, s.rows[k], a);
    }
  }

  /** What is not all on disk reaches something that is gone. */
  lemma ReachesGone(w: World, s: State, item: Item) returns (a: Address)
    requires !OnDisk(w, s, item)
    ensures ItemReaches(w, item, a) && a !in s.disk
  {
    OnDiskIff(w, s, item);
    a :| ItemReaches(w, item, a) && a !in s.disk;
  }

  /** A journal or checkpoint whose bytes are gone needs something that is not on disk. */
  lemma FrontierGone(w: World, s: State, f: Frontier) returns (a: Address)
    requires !FrontierOnDisk(w, s, f)
    ensures FrontierNeeds(w, s, f, a) && a !in s.disk
  {
    if Address(Blobs, f.content.locator) !in s.disk {
      a := Address(Blobs, f.content.locator);
    } else if k :| k in f.staged && !OnDisk(w, s, RecordItem(f.staged[k], true)) {
      a := ReachesGone(w, s, RecordItem(f.staged[k], true));
    } else {
      var k :| k in f.required && k in s.rows &&
          !(if k in f.staged then LayerOnDisk(w, s, s.rows[k]) else RowOnDisk(w, s, s.rows[k]));
      if !LayerOnDisk(w, s, s.rows[k]) {
        a := ReachesGone(w, s, LayerItem(s.rows[k].layer.value, true));
      } else {
        a := ReachesGone(w, s, RecordItem(s.rows[k].record, true));
        assert RowNeeds(w, s.rows[k], a);
      }
    }
  }

  /** What the publisher checks before it records a journal or checkpoint is exactly what that will need. */
  lemma FrontierOnDiskIff(w: World, s: State, f: Frontier)
    ensures FrontierOnDisk(w, s, f) <==> forall a :: FrontierNeeds(w, s, f, a) ==> a in s.disk
  {
    if FrontierOnDisk(w, s, f) {
      forall a | FrontierNeeds(w, s, f, a) ensures a in s.disk { RecordedFrontierNeeds(w, s, f, a); }
    } else {
      var a := FrontierGone(w, s, f);
    }
  }

  lemma FrontierStored(w: World, s: State, e: Key, f: Frontier, a: Address)
    requires Stored(w, s) && FrontierOnDisk(w, s, f) && Needed(w, s.(frontiers := s.frontiers[e := f]), {}, a)
    ensures a in s.disk
  {
    var t := s.(frontiers := s.frontiers[e := f]);
    if Recoverable(t, e) && FrontierNeeds(w, t, f, a) {
      FrontierNeedsSame(w, t, s, f, a);
      RecordedFrontierNeeds(w, s, f, a);
    } else {
      var u := s.(frontiers := s.frontiers - {e});
      if k :| Live(t, k, {}) && RowNeeds(w, t.rows[k], a) {
        assert Live(u, k, {});
      } else {
        var d :| d in t.frontiers && Recoverable(t, d) && d !in {} && FrontierNeeds(w, t, t.frontiers[d], a);
        FrontierNeedsSame(w, t, u, t.frontiers[d], a);
        assert Recoverable(u, d);
      }
      NeedsShrink(w, u, s, {}, a);
    }
  }

  lemma CommitStored(w: World, s: State, batch: map<Key, Entry>, a: Address)
    requires Stored(w, s) && Apply(w, s, Commit(batch)) != s && !RevivesLostFrontier(w, s, Commit(batch))
    requires Needed(w, Apply(w, s, Commit(batch)), {}, a)
    ensures a in s.disk
  {
    var t := s.(rows := s.rows + batch);
    CommitNeeds(w, s, batch, a);
    if e :| RevivedNeeds(w, s, t, e, a) {
      assert Revived(s, batch, e);
      RecordedFrontierNeeds(w, t, t.frontiers[e], a);
    }
  }

  /** A revived journal or checkpoint needs what is gone. */
  lemma RevivedNotStored(w: World, s: State, batch: map<Key, Entry>)
    requires RevivesLostFrontier(w, s, Commit(batch))
    ensures !Stored(w, Apply(w, s, Commit(batch)))
  {
    var t := s.(rows := s.rows + batch);
    var e :| e in s.frontiers && Revived(s, batch, e) && !FrontierOnDisk(w, t, s.frontiers[e]);
    var a := FrontierGone(w, t, t.frontiers[e]);
    assert Recoverable(t, e) && Needed(w, t, {}, a);
  }

  /** Needed bytes stay on disk through every step, exactly unless a commit revives an abandoned frontier. */
  lemma StoredStep(w: World, s: State, action: Action)
    requires Stored(w, s) && Guarded(w, s)
    ensures Stored(w, Apply(w, s, action)) <==> !RevivesLostFrontier(w, s, action)
  {
    var t := Apply(w, s, action);
    if RevivesLostFrontier(w, s, action) {
      RevivedNotStored(w, s, action.batch);
    } else if t != s {
      forall a | Needed(w, t, {}, a) ensures a in t.disk {
        if action.Commit? {
          CommitStored(w, s, action.batch, a);
        } else if action.RecordFrontier? {
          FrontierStored(w, s, action.execution, action.frontier, a);
        } else {
          NeedsShrink(w, t, s, {}, a);
        }
      }
    }
  }

  ghost predicate Revives(w: World, s: State, actions: seq<Action>) {
    exists i :: 0 <= i < |actions| && RevivesLostFrontier(w, Run(w, s, actions[..i]), actions[i])
  }

  /** Across publications, removals, crashes and resumes: what is needed is on disk. */
  lemma {:induction false} NeededStaysOnDisk(w: World, actions: seq<Action>)
    requires !Revives(w, EMPTY, actions)
    ensures Stored(w, Run(w, EMPTY, actions))
    decreases |actions|
  {
    if actions != [] {
      var n := |actions| - 1;
      assert forall i :: 0 <= i < n ==> actions[..n][..i] == actions[..i];
      NeededStaysOnDisk(w, actions[..n]);
      GuardedRun(w, actions[..n]);
      StoredStep(w, Run(w, EMPTY, actions[..n]), actions[n]);
    }
  }

  // ----- the exception is real -----

  const JOURNAL := Ref("journal", "digest", 1, "application/json")
  const EXECUTION: Entry := Entry(Value(None), None, true, true)

  /** An abandoned journal collected as an orphan, then its execution retained again. */
  const REVIVAL: seq<Action> := [
    Write({Address(Blobs, "journal")}),
    Commit(map["execution" := EXECUTION]),
    RecordFrontier("execution", Frontier(JOURNAL, {}, map[])),
    Begin("removal", {"execution"}, [Content(Blobs, JOURNAL)], [RecordItem(Value(None), false)]),
    Delete(Address(Blobs, "journal")),
    RecordDeleted,
    Finish,
    Commit(map["execution" := EXECUTION])]

  lemma {:induction false} RunConcat(w: World, s: State, xs: seq<Action>, action: Action)
    ensures Run(w, s, xs + [action]) == Apply(w, Run(w, s, xs), action)
  {
    assert (xs + [action])[..|xs|] == xs;
  }

  lemma RevivalBegins(w: World)
    ensures var s :=
        State(map["execution" := EXECUTION], map["execution" := Frontier(JOURNAL, {}, map[])],
        {Address(Blobs, "journal")}, map[], None);
      BeginRemoval(w, s, "removal", {"execution"}, [Content(Blobs, JOURNAL)], [RecordItem(Value(None), false)])
      == State(map["execution" := EXECUTION.(available := false)], s.frontiers, s.disk,
               map["removal" := Intent({"execution"}, map[Address(Blobs, "journal") := Pending], false)],
               Some(Sweep("removal", {}, None)))
  {
    var s := State(map["execution" := EXECUTION], map["execution" := Frontier(JOURNAL, {}, map[])],
        {Address(Blobs, "journal")}, map[], None);
    var keys, items := {"execution"}, [RecordItem(Value(None), false)];
    RevivalMarks(w, s);
    var orphans := [Content(Blobs, JOURNAL)];
    var o := Orphans(orphans);
    assert o == [(Content(Blobs, JOURNAL), false)] && o[1..] == [];
    assert Mark(map[], o) == Some(map[Address(Blobs, "journal") := Row(JOURNAL, true, false)]);
    var u: Table := map[Address(Blobs, "journal") := Row(JOURNAL, true, false)];
    assert ProtectedIn(u) == {};
    var targets := map a | a in u && u[a].candidate :: Pending;
    assert targets == map[Address(Blobs, "journal") := Pending];
    assert Unavailable(s.rows, keys) == map["execution" := EXECUTION.(available := false)];
  }

  lemma RevivalMarks(w: World, s: State)
    requires s.rows == map["execution" := EXECUTION] && s.frontiers.Keys == {"execution"}
    ensures var items := [RecordItem(Value(None), false)];
      (set x | x in items) == MarkItems(s, {"execution"}, true) &&
          InventoryOf(w, map[], items, {"execution"}) == Some(map[])
  {
    var keys, item := {"execution"}, RecordItem(Value(None), false);
    var items := [item];
    assert (set x | x in items) == {item};
    assert AvailableKeys(s) == keys && AvailableKeys(s) * keys == keys && AvailableKeys(s) - keys == {};
    assert RecordItems(s, keys, false) == {item};
    assert MarkItems(s, keys, true) == {item};
    assert items[1..] == [] && Expand(w, item) == [];
  }

  /** The condition cannot be dropped: this run ends with a recoverable journal whose bytes are gone. */
  lemma RevivalLosesJournal(w: World)
    ensures Revives(w, EMPTY, REVIVAL) && !Stored(w, Run(w, EMPTY, REVIVAL))
  {
    var a := Address(Blobs, "journal");
    var f := Frontier(JOURNAL, {}, map[]);
    var rows: map<Key, Entry> := map["execution" := EXECUTION];
    var s3 := State(rows, map["execution" := f], {a}, map[], None);
    RevivalToThree(w);
    RevivalBegins(w);
    var lost := State(map["execution" := EXECUTION.(available := false)], map["execution" := f], {},
                      map["removal" := Intent({"execution"}, map[a := Deleted], true)], None);
    RevivalToSeven(w);
    RunConcat(w, EMPTY, REVIVAL[..7], REVIVAL[7]);
    assert REVIVAL[..7] + [REVIVAL[7]] == REVIVAL;
    var t := Apply(w, lost, REVIVAL[7]);
    assert RowOnDisk(w, lost, EXECUTION);
    assert t == lost.(rows := lost.rows + rows);
    assert Recoverable(t, "execution") && FrontierNeeds(w, t, f, a);
    assert !FrontierOnDisk(w, t, f) && Revived(lost, rows, "execution");
    assert RevivesLostFrontier(w, Run(w, EMPTY, REVIVAL[..7]), REVIVAL[7]);
    assert Needed(w, t, {}, a);
  }

  lemma RevivalToThree(w: World)
    ensures Run(w, EMPTY, REVIVAL[..3]) ==
      State(map["execution" := EXECUTION], map["execution" := Frontier(JOURNAL, {}, map[])],
          {Address(Blobs, "journal")}, map[], None)
  {
    var a, f := Address(Blobs, "journal"), Frontier(JOURNAL, {}, map[]);
    var s1 := EMPTY.(disk := {a});
    assert REVIVAL[..1] == [] + [REVIVAL[0]];
    assert REVIVAL[..2] == REVIVAL[..1] + [REVIVAL[1]];
    assert REVIVAL[..3] == REVIVAL[..2] + [REVIVAL[2]];
    RunConcat(w, EMPTY, [], REVIVAL[0]);
    RunConcat(w, EMPTY, REVIVAL[..1], REVIVAL[1]);
    RunConcat(w, EMPTY, REVIVAL[..2], REVIVAL[2]);
    assert Run(w, EMPTY, REVIVAL[..1]) == s1;
    var batch: map<Key, Entry> := map["execution" := EXECUTION];
    assert s1.rows + batch == batch;
    var s2 := s1.(rows := batch);
    assert Apply(w, s1, REVIVAL[1]) == s2;
    assert s2.frontiers["execution" := f] == map["execution" := f];
  }

  /** The sweep of one unprotected target: delete, record, finish. */
  lemma SweepOfOne(w: World, s: State, update: UpdateId, keys: set<Key>, a: Address)
    requires s.disk == {a} && s.sweep == Some(Sweep(update, {}, None))
    requires s.removals == map[update := Intent(keys, map[a := Pending], false)]
    ensures Apply(w, Apply(w, Apply(w, s, Delete(a)), RecordDeleted), Finish)
         == State(s.rows, s.frontiers, {}, map[update := Intent(keys, map[a := Deleted], true)], None)
  {
    assert Unfinished(s.removals[update]) == {a};
    var s1 := Apply(w, s, Delete(a));
    assert s1 == s.(disk := {}, sweep := Some(Sweep(update, {}, Some((a, true)))));
    var s2 := Apply(w, s1, RecordDeleted);
    var pending: map<Address, Status> := map[a := Pending];
    assert pending[a := Deleted] == map[a := Deleted];
    assert s2.removals == map[update := Intent(keys, map[a := Deleted], false)];
    assert Unfinished(s2.removals[update]) == {};
    assert Apply(w, s2, Finish).removals == map[update := Intent(keys, map[a := Deleted], true)];
  }

  lemma RevivalToSeven(w: World)
    ensures Run(w, EMPTY, REVIVAL[..7]) ==
      State(map["execution" := EXECUTION.(available := false)], map["execution" := Frontier(JOURNAL, {}, map[])], {},
            map["removal" := Intent({"execution"}, map[Address(Blobs, "journal") := Deleted], true)], None)
  {
    RevivalToThree(w);
    RevivalBegins(w);
    assert REVIVAL[..4] == REVIVAL[..3] + [REVIVAL[3]];
    RunConcat(w, EMPTY, REVIVAL[..3], REVIVAL[3]);
    SweepOfOne(w, Run(w, EMPTY, REVIVAL[..4]), "removal", {"execution"}, Address(Blobs, "journal"));
    RevivalSweeps(w);
  }

  lemma RevivalSweeps(w: World)
    ensures Run(w, EMPTY, REVIVAL[..7])
         == Apply(w, Apply(w, Apply(w, Run(w, EMPTY, REVIVAL[..4]), REVIVAL[4]), REVIVAL[5]), REVIVAL[6])
  {
    assert REVIVAL[..5] == REVIVAL[..4] + [REVIVAL[4]];
    assert REVIVAL[..6] == REVIVAL[..5] + [REVIVAL[5]];
    assert REVIVAL[..7] == REVIVAL[..6] + [REVIVAL[6]];
    RunConcat(w, EMPTY, REVIVAL[..4], REVIVAL[4]);
    RunConcat(w, EMPTY, REVIVAL[..5], REVIVAL[5]);
    RunConcat(w, EMPTY, REVIVAL[..6], REVIVAL[6]);
  }
}
