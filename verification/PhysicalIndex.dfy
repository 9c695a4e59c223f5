/** Marking for removal: which physical bytes retained records still need. */
module PhysicalIndex {
  // A record owns blobs and record layers; layers share data files, and data
  // files name further blobs.  The index keeps one row per physical address.

  import opened Prelude

  type Key = string
  type LayerId = string
  type Locator = string

  datatype Store = Blobs | Records

  datatype Ref = Ref(locator: Locator, digest: string, size: nat, mediaType: string)

  datatype Content = Content(store: Store, ref: Ref)

  datatype Address = Address(store: Store, locator: Locator)

  datatype Row = Row(reference: Ref, candidate: bool, protected: bool)

  type Table = map<Address, Row>

  /** What the immutable manifests, layers and data files say. */
  datatype World = World(
    physical: LayerId -> seq<Ref>,          // the files of one record layer
    dataFiles: LayerId -> seq<Locator>,     // the data files of an entity layer
    contents: Locator -> seq<Ref>,          // the blobs one data file names
    manifest: Ref -> Manifest,              // the layers a retained state manifest names
    selection: Ref -> LayerId,              // the layer a selection manifest names
    selected: LayerId -> seq<Ref>)          // the blobs that layer names

  datatype Manifest = Manifest(layers: seq<LayerId>, entities: Option<LayerId>, occurrences: set<string>)

  /** A retained record as the inventory sees it. */
  datatype Record =
    | Value(content: Option<Ref>)                             // entities, revisions: their value or edits
    | InlineState(occurrences: set<string>)                   // a representation with inline membership
    | BulkState(membership: Ref)                              // a representation with a manifest
    | SelectedMembers(value: Ref)                             // a selected value over state members

  /** One thing to mark, with the protection it gives. */
  datatype Item =
    | LayerItem(layer: LayerId, protected: bool)
    | RecordItem(record: Record, protected: bool)
    | JournalItem(content: Ref)

  type Obligation = (Content, bool)

  function AddressOf(c: Content): Address { Address(c.store, c.ref.locator) }

  // ----- the reference definition: every obligation added, nothing remembered -----

  function All(store: Store, refs: seq<Ref>, protected: bool): seq<Obligation> {
    seq(|refs|, i requires 0 <= i < |refs| => (Content(store, refs[i]), protected))
  }

  function LayersOf(w: World, layers: seq<LayerId>, protected: bool): seq<Obligation> {
    if layers == [] then [] else All(Records, w.physical(layers[0]), protected) + LayersOf(w, layers[1..], protected)
  }

  function FilesOf(w: World, files: seq<Locator>, protected: bool): seq<Obligation> {
    if files == [] then [] else All(Blobs, w.contents(files[0]), protected) + FilesOf(w, files[1..], protected)
  }

  function Expand(w: World, item: Item): seq<Obligation> {
    match item
    case LayerItem(layer, protected) => All(Records, w.physical(layer), protected)
    case JournalItem(content) => All(Blobs, [content], true)
    case RecordItem(Value(None), _) => []
    case RecordItem(Value(Some(ref)), protected) => All(Blobs, [ref], protected)
    case RecordItem(InlineState(_), _) => []
    case RecordItem(BulkState(ref), protected) =>
      var m := w.manifest(ref);
      All(Blobs, [ref], protected) + LayersOf(w, m.layers, protected)
      + (if m.entities.Some? then FilesOf(w, w.dataFiles(m.entities.value), protected) else [])
    case RecordItem(SelectedMembers(ref), protected) =>
      var layer := w.selection(ref);
      All(Blobs, [ref], protected) + All(Records, w.physical(layer), protected)
          + All(Blobs, w.selected(layer), protected)
  }

  // ----- what a record keeps, read off the manifests, layers and data files alone -----

  predicate LayerKeeps(w: World, layer: LayerId, c: Content) { c.store == Records && c.ref in w.physical(layer) }

  predicate Named(refs: seq<Ref>, c: Content) { c.store == Blobs && c.ref in refs }

  /** A record keeps its own blob; a state each file of each layer of its manifest and each blob that a data file of
      its entity layer names; a selection the files of its layer and the blobs that layer names. */
  ghost predicate RecordKeeps(w: World, r: Record, c: Content) {
    match r
    case Value(content) => content.Some? && c == Content(Blobs, content.value)
    case InlineState(_) => false
    case BulkState(ref) =>
      || c == Content(Blobs, ref)
      || (exists l :: l in w.manifest(ref).layers && LayerKeeps(w, l, c))
      || (w.manifest(ref).entities.Some? &&
           exists f :: f in w.dataFiles(w.manifest(ref).entities.value) && Named(w.contents(f), c))
    case SelectedMembers(ref) =>
      c == Content(Blobs, ref) || LayerKeeps(w, w.selection(ref), c) || Named(w.selected(w.selection(ref)), c)
  }

  ghost predicate ItemKeeps(w: World, item: Item, c: Content) {
    match item
    case LayerItem(layer, _) => LayerKeeps(w, layer, c)
    case RecordItem(record, _) => RecordKeeps(w, record, c)
    case JournalItem(content) => c == Content(Blobs, content)
  }

  predicate Protects(item: Item) { item.JournalItem? || item.protected }

  ghost predicate LayerReaches(w: World, layer: LayerId, a: Address) {
    exists c :: LayerKeeps(w, layer, c) && AddressOf(c) == a
  }

  ghost predicate RecordReaches(w: World, r: Record, a: Address) {
    exists c :: RecordKeeps(w, r, c) && AddressOf(c) == a
  }

  ghost predicate ItemReaches(w: World, item: Item, a: Address) {
    match item
    case LayerItem(layer, _) => LayerReaches(w, layer, a)
    case RecordItem(record, _) => RecordReaches(w, record, a)
    case JournalItem(content) => a == Address(Blobs, content.locator)
  }

  lemma ReachesKept(w: World, item: Item, a: Address)
    ensures ItemReaches(w, item, a) <==> exists c :: ItemKeeps(w, item, c) && AddressOf(c) == a
  {
    match item
    case LayerItem(layer, _) =>
      if c :| LayerKeeps(w, layer, c) && AddressOf(c) == a { assert ItemKeeps(w, item, c); }
    case RecordItem(record, _) =>
      if c :| RecordKeeps(w, record, c) && AddressOf(c) == a { assert ItemKeeps(w, item, c); }
    case JournalItem(content) => assert ItemKeeps(w, item, Content(Blobs, content));
  }

  lemma AllHas(store: Store, refs: seq<Ref>, protected: bool, o: Obligation)
    ensures o in All(store, refs, protected) <==> o.0.store == store && o.0.ref in refs && o.1 == protected
  {
    var all := All(store, refs, protected);
    if o.0.store == store && o.0.ref in refs && o.1 == protected {
      var i :| 0 <= i < |refs| && refs[i] == o.0.ref;
      assert all[i] == o;
    }
  }

  lemma {:induction false} LayersHave(w: World, layers: seq<LayerId>, protected: bool, o: Obligation)
    ensures o in LayersOf(w, layers, protected) <==>
        o.1 == protected && exists l :: l in layers && LayerKeeps(w, l, o.0)
    decreases |layers|
  {
    if layers != [] {
      AllHas(Records, w.physical(layers[0]), protected, o);
      LayersHave(w, layers[1..], protected, o);
      var head, tail := All(Records, w.physical(layers[0]), protected), LayersOf(w, layers[1..], protected);
      assert o in head + tail <==> o in head || o in tail;
      assert LayerKeeps(w, layers[0], o.0) <==> o.0.store == Records && o.0.ref in w.physical(layers[0]);
      assert forall l :: l in layers && LayerKeeps(w, l, o.0) ==> l == layers[0] || l in layers[1..];
    }
  }

  lemma {:induction false} FilesHave(w: World, files: seq<Locator>, protected: bool, o: Obligation)
    ensures o in FilesOf(w, files, protected) <==>
        o.1 == protected && exists f :: f in files && Named(w.contents(f), o.0)
    decreases |files|
  {
    if files != [] {
      AllHas(Blobs, w.contents(files[0]), protected, o);
      FilesHave(w, files[1..], protected, o);
      assert forall f :: f in files <==> f == files[0] || f in files[1..];
    }
  }

  /** The inventory adds for an item exactly what the item keeps, with the protection the item gives. */
  lemma ExpandsKept(w: World, item: Item, o: Obligation)
    ensures o in Expand(w, item) <==> o.1 == Protects(item) && ItemKeeps(w, item, o.0)
  {
    match item
    case LayerItem(layer, protected) => AllHas(Records, w.physical(layer), protected, o);
    case JournalItem(content) => AllHas(Blobs, [content], true, o);
    case RecordItem(record, protected) => RecordExpandsKept(w, record, protected, o);
  }

  lemma RecordExpandsKept(w: World, record: Record, protected: bool, o: Obligation)
    ensures o in Expand(w, RecordItem(record, protected)) <==> o.1 == protected && RecordKeeps(w, record, o.0)
  {
    match record
    case Value(content) => if content.Some? { AllHas(Blobs, [content.value], protected, o); }
    case InlineState(_) =>
    case BulkState(ref) =>
      var m := w.manifest(ref);
      AllHas(Blobs, [ref], protected, o);
      LayersHave(w, m.layers, protected, o);
      if m.entities.Some? { FilesHave(w, w.dataFiles(m.entities.value), protected, o); }
    case SelectedMembers(ref) =>
      var layer := w.selection(ref);
      AllHas(Blobs, [ref], protected, o);
      AllHas(Records, w.physical(layer), protected, o);
      AllHas(Blobs, w.selected(layer), protected, o);
  }

  lemma ExpandReaches(w: World, item: Item, a: Address, protected: bool)
    ensures Names(Expand(w, item), a, protected) <==> protected == Protects(item) && ItemReaches(w, item, a)
  {
    var obligations := Expand(w, item);
    ReachesKept(w, item, a);
    if Names(obligations, a, protected) {
      var i :| 0 <= i < |obligations| && AddressOf(obligations[i].0) == a && obligations[i].1 == protected;
      ExpandsKept(w, item, obligations[i]);
    }
    if protected == Protects(item) && ItemReaches(w, item, a) {
      var c :| ItemKeeps(w, item, c) && AddressOf(c) == a;
      ExpandsKept(w, item, (c, protected));
      var i :| 0 <= i < |obligations| && obligations[i] == (c, protected);
    }
  }

  /** The members a state holds, inline or in its manifest. */
  function Members(w: World, r: Record): set<string> {
    if r.InlineState? then r.occurrences else if r.BulkState? then w.manifest(r.membership).occurrences else {}
  }

  /** A protected state whose members are in the removal scope refuses the removal. */
  predicate Refuses(w: World, item: Item, targets: set<string>) {
    item.RecordItem? && item.protected && Members(w, item.record) * targets != {}
  }

  predicate Agrees(t: Table, c: Content) {
    AddressOf(c) in t ==>
        t[AddressOf(c)].reference.digest == c.ref.digest && t[AddressOf(c)].reference.size == c.ref.size
  }

  /** One row per address: the first reference stays, the flags only grow. */
  function Added(t: Table, o: Obligation): Table {
    var a := AddressOf(o.0);
    if a in t then t[a := Row(t[a].reference, t[a].candidate || !o.1, t[a].protected || o.1)]
    else t[a := Row(o.0.ref, !o.1, o.1)]
  }

  /** Adding every obligation in order; None when two claim different bytes at one address. */
  function Mark(t: Table, obligations: seq<Obligation>): Option<Table>
    decreases |obligations|
  {
    if obligations == [] then Some(t)
    else if Agrees(t, obligations[0].0) then Mark(Added(t, obligations[0]), obligations[1..])
    else None
  }

  /** The whole unmemoised inventory of some items. */
  function InventoryOf(w: World, t: Table, items: seq<Item>, targets: set<string>): Option<Table>
    decreases |items|
  {
    if items == [] then Some(t)
    else if Refuses(w, items[0], targets) then None
    else match Mark(t, Expand(w, items[0]))
      case None => None
      case Some(u) => InventoryOf(w, u, items[1..], targets)
  }

  lemma {:induction false} MarkAppend(t: Table, xs: seq<Obligation>, ys: seq<Obligation>)
    ensures Mark(t, xs + ys) == match Mark(t, xs) case None => None case Some(u) => Mark(u, ys)
    decreases |xs|
  {
    if xs == [] {
      assert xs + ys == ys;
    } else {
      assert (xs + ys)[1..] == xs[1..] + ys;
      if Agrees(t, xs[0].0) { MarkAppend(Added(t, xs[0]), xs[1..], ys); }
    }
  }

  // ----- what the marked table means -----

  predicate Names(obligations: seq<Obligation>, a: Address, protected: bool) {
    exists i :: 0 <= i < |obligations| && AddressOf(obligations[i].0) == a && obligations[i].1 == protected
  }

  /** An address is protected exactly when a protecting obligation names it, and a candidate likewise. */
  lemma {:induction false} MarkMeans(t: Table, obligations: seq<Obligation>, a: Address)
    requires Mark(t, obligations).Some?
    ensures var u := Mark(t, obligations).value;
      && (a in u <==> a in t || Names(obligations, a, true) || Names(obligations, a, false))
      && (a in u && u[a].protected <==> (a in t && t[a].protected) || Names(obligations, a, true))
      && (a in u && u[a].candidate <==> (a in t && t[a].candidate) || Names(obligations, a, false))
    decreases |obligations|
  {
    if obligations != [] {
      var rest := obligations[1..];
      MarkMeans(Added(t, obligations[0]), rest, a);
      forall p: bool ensures Names(obligations, a, p) <==>
          (AddressOf(obligations[0].0) == a && obligations[0].1 == p) || Names(rest, a, p) {
        if Names(rest, a, p) {
          var i :| 0 <= i < |rest| && AddressOf(rest[i].0) == a && rest[i].1 == p;
          assert obligations[i + 1] == rest[i];
        }
        if Names(obligations, a, p) {
          var i :| 0 <= i < |obligations| && AddressOf(obligations[i].0) == a && obligations[i].1 == p;
          assert i > 0 ==> rest[i - 1] == obligations[i];
        }
      }
    }
  }

  ghost predicate SomeItemNames(w: World, items: seq<Item>, a: Address, protected: bool) {
    exists i :: 0 <= i < |items| && Protects(items[i]) == protected && ItemReaches(w, items[i], a)
  }

  /** The same for a whole inventory: only what its items keep decides, in whatever order they come. */
  lemma {:induction false} InventoryMeans(w: World, t: Table, items: seq<Item>, targets: set<string>, a: Address)
    requires InventoryOf(w, t, items, targets).Some?
    ensures var u := InventoryOf(w, t, items, targets).value;
      && (a in u && u[a].protected <==> (a in t && t[a].protected) || SomeItemNames(w, items, a, true))
      && (a in u && u[a].candidate <==> (a in t && t[a].candidate) || SomeItemNames(w, items, a, false))
    decreases |items|
  {
    if items != [] {
      var rest := items[1..];
      MarkMeans(t, Expand(w, items[0]), a);
      InventoryMeans(w, Mark(t, Expand(w, items[0])).value, rest, targets, a);
      forall p: bool ensures SomeItemNames(w, items, a, p) <==>
          Names(Expand(w, items[0]), a, p) || SomeItemNames(w, rest, a, p) {
        ExpandReaches(w, items[0], a, p);
        if SomeItemNames(w, rest, a, p) {
          var i :| 0 <= i < |rest| && Protects(rest[i]) == p && ItemReaches(w, rest[i], a);
          assert items[i + 1] == rest[i];
        }
        if SomeItemNames(w, items, a, p) {
          var i :| 0 <= i < |items| && Protects(items[i]) == p && ItemReaches(w, items[i], a);
          assert i > 0 ==> rest[i - 1] == items[i];
        }
      }
    }
  }

  // ----- when an inventory refuses -----

  /** One address holds one sequence of bytes. */
  predicate Compatible(c: Content, d: Content) {
    AddressOf(c) == AddressOf(d) ==> c.ref.digest == d.ref.digest && c.ref.size == d.ref.size
  }

  lemma AddedAgrees(t: Table, o: Obligation, c: Content)
    requires Agrees(t, o.0)
    ensures Agrees(Added(t, o), c) <==> Agrees(t, c) && Compatible(o.0, c)
  {
  }

  /** What was marked contradicts nothing of the table and nothing of itself; what agrees later agrees with all. */
  lemma {:induction false} MarkAgrees(t: Table, obligations: seq<Obligation>, c: Content)
    requires Mark(t, obligations).Some?
    ensures Agrees(Mark(t, obligations).value, c) <==> Agrees(t, c) && CompatibleWith(obligations, c)
    decreases |obligations|
  {
    if obligations != [] {
      AddedAgrees(t, obligations[0], c);
      MarkAgrees(Added(t, obligations[0]), obligations[1..], c);
      CompatibleSplits(obligations, c);
    }
  }

  predicate CompatibleWith(obligations: seq<Obligation>, c: Content) {
    forall o :: o in obligations ==> Compatible(o.0, c)
  }

  lemma CompatibleSplits(obligations: seq<Obligation>, c: Content)
    requires obligations != []
    ensures CompatibleWith(obligations, c) <==>
        Compatible(obligations[0].0, c) && CompatibleWith(obligations[1..], c)
  {
    assert forall o :: o in obligations <==> o == obligations[0] || o in obligations[1..];
  }

  predicate SelfCompatible(obligations: seq<Obligation>) {
    forall o :: o in obligations ==> CompatibleWith(obligations, o.0)
  }

  predicate AllAgree(t: Table, obligations: seq<Obligation>) { forall o :: o in obligations ==> Agrees(t, o.0) }

  lemma {:induction false} MarksIff(t: Table, obligations: seq<Obligation>)
    ensures Mark(t, obligations).Some? <==> AllAgree(t, obligations) && SelfCompatible(obligations)
    decreases |obligations|
  {
    if obligations != [] {
      var first, rest := obligations[0], obligations[1..];
      assert forall o :: o in obligations <==> o == first || o in rest;
      forall o: Obligation ensures CompatibleWith(obligations, o.0) <==>
          Compatible(first.0, o.0) && CompatibleWith(rest, o.0) {
        CompatibleSplits(obligations, o.0);
      }
      if Agrees(t, first.0) {
        MarksIff(Added(t, first), rest);
        forall o: Obligation ensures Agrees(Added(t, first), o.0) <==> Agrees(t, o.0) && Compatible(first.0, o.0) {
          AddedAgrees(t, first, o.0);
        }
      }
    }
  }

  ghost predicate Kept(w: World, items: seq<Item>, c: Content) {
    exists i :: 0 <= i < |items| && ItemKeeps(w, items[i], c)
  }

  /** Two items, or one, keep contents that claim different bytes at one address. */
  ghost predicate Contradictory(w: World, items: seq<Item>) {
    exists c, d :: Kept(w, items, c) && Kept(w, items, d) && !Compatible(c, d)
  }

  ghost predicate KeptAgree(w: World, t: Table, items: seq<Item>) { forall c :: Kept(w, items, c) ==> Agrees(t, c) }

  lemma KeptSplits(w: World, items: seq<Item>, c: Content)
    requires items != []
    ensures Kept(w, items, c) <==> ItemKeeps(w, items[0], c) || Kept(w, items[1..], c)
  {
    if i :| 0 <= i < |items[1..]| && ItemKeeps(w, items[1..][i], c) { assert items[i + 1] == items[1..][i]; }
    if i :| 0 <= i < |items| && ItemKeeps(w, items[i], c) { assert i > 0 ==> items[1..][i - 1] == items[i]; }
  }

  /** What agrees with a marked table is compatible with everything the items keep. */
  lemma {:induction false} InventoryAgrees(w: World, t: Table, items: seq<Item>, targets: set<string>, c: Content)
    requires InventoryOf(w, t, items, targets).Some?
    ensures Agrees(InventoryOf(w, t, items, targets).value, c) <==>
        Agrees(t, c) && forall d :: Kept(w, items, d) ==> Compatible(d, c)
    decreases |items|
  {
    if items != [] {
      forall d ensures Kept(w, items, d) <==> ItemKeeps(w, items[0], d) || Kept(w, items[1..], d) {
        KeptSplits(w, items, d);
      }
      ItemMarksIff(w, t, items[0]);
      InventoryAgrees(w, Mark(t, Expand(w, items[0])).value, items[1..], targets, c);
    }
  }

  predicate SomeRefuses(w: World, items: seq<Item>, targets: set<string>) {
    exists i :: 0 <= i < |items| && Refuses(w, items[i], targets)
  }

  lemma RefusesSplits(w: World, items: seq<Item>, targets: set<string>)
    requires items != []
    ensures SomeRefuses(w, items, targets) <==> Refuses(w, items[0], targets) || SomeRefuses(w, items[1..], targets)
  {
    if i :| 0 <= i < |items[1..]| && Refuses(w, items[1..][i], targets) { assert items[i + 1] == items[1..][i]; }
    if i :| 0 <= i < |items| && Refuses(w, items[i], targets) { assert i > 0 ==> items[1..][i - 1] == items[i]; }
  }

  /** Marking one item succeeds exactly when what it keeps agrees with the table and with itself, and what agrees with
      the table after it agrees with both. */
  lemma ItemMarksIff(w: World, t: Table, item: Item)
    ensures Mark(t, Expand(w, item)).Some? <==>
        && (forall c :: ItemKeeps(w, item, c) ==> Agrees(t, c))
        && (forall c, d :: ItemKeeps(w, item, c) && ItemKeeps(w, item, d) ==> Compatible(c, d))
    ensures Mark(t, Expand(w, item)).Some? ==> forall c :: Agrees(Mark(t, Expand(w, item)).value, c) <==>
        Agrees(t, c) && forall d :: ItemKeeps(w, item, d) ==> Compatible(d, c)
  {
    var obligations, p := Expand(w, item), Protects(item);
    MarksIff(t, obligations);
    forall o: Obligation ensures o in obligations <==> o.1 == p && ItemKeeps(w, item, o.0) { ExpandsKept(w, item, o); }
    assert forall c :: ItemKeeps(w, item, c) ==> (c, p) in obligations;
    if Mark(t, obligations).Some? {
      forall c ensures Agrees(Mark(t, obligations).value, c) <==>
          Agrees(t, c) && forall d :: ItemKeeps(w, item, d) ==> Compatible(d, c) {
        MarkAgrees(t, obligations, c);
        assert CompatibleWith(obligations, c) ==> forall d :: ItemKeeps(w, item, d) ==> Compatible((d, p).0, c);
      }
    }
  }

  /** An inventory refuses exactly when a protected state holds a member of the scope, or what the items keep
      contradicts itself or the table. */
  lemma {:induction false} InventoryRefusesIff(w: World, t: Table, items: seq<Item>, targets: set<string>)
    ensures InventoryOf(w, t, items, targets).None? <==>
        SomeRefuses(w, items, targets) || Contradictory(w, items) || !KeptAgree(w, t, items)
    decreases |items|
  {
    if items != [] {
      var rest := items[1..];
      RefusesSplits(w, items, targets);
      forall c ensures Kept(w, items, c) <==> ItemKeeps(w, items[0], c) || Kept(w, rest, c) { KeptSplits(w, items, c); }
      ItemMarksIff(w, t, items[0]);
      var marked := Mark(t, Expand(w, items[0]));
      if marked.Some? { InventoryRefusesIff(w, marked.value, rest, targets); }
    }
  }

  // ----- why remembering is sound -----

  /** The table already holds what this obligation would add. */
  predicate Holds(t: Table, o: Obligation) {
    AddressOf(o.0) in t && Agrees(t, o.0) && (if o.1 then t[AddressOf(o.0)].protected else t[AddressOf(o.0)].candidate)
  }

  predicate Covered(t: Table, obligations: seq<Obligation>) {
    forall i :: 0 <= i < |obligations| ==> Holds(t, obligations[i])
  }

  /** This row keeps its bytes and its flags only grow. */
  predicate RowGrows(t: Table, u: Table, a: Address)
    requires a in t
  {
    a in u && u[a].reference == t[a].reference && (t[a].protected ==> u[a].protected) &&
        (t[a].candidate ==> u[a].candidate)
  }

  predicate Grows(t: Table, u: Table) { forall a :: a in t ==> RowGrows(t, u, a) }

  lemma GrowsKeeps(t: Table, u: Table, obligations: seq<Obligation>)
    requires Grows(t, u) && Covered(t, obligations)
    ensures Covered(u, obligations)
  {
    forall i | 0 <= i < |obligations| ensures Holds(u, obligations[i]) {
      assert Holds(t, obligations[i]);
      assert RowGrows(t, u, AddressOf(obligations[i].0));
    }
  }

  lemma {:induction false} MarkGrows(t: Table, obligations: seq<Obligation>)
    requires Mark(t, obligations).Some?
    ensures Grows(t, Mark(t, obligations).value) && Covered(Mark(t, obligations).value, obligations)
    decreases |obligations|
  {
    if obligations != [] {
      var first, rest := obligations[0], obligations[1..];
      var u := Added(t, first);
      MarkGrows(u, rest);
      assert Covered(u, [first]);
      var v := Mark(t, obligations).value;
      GrowsKeeps(u, v, [first]);
      forall a | a in t ensures RowGrows(t, v, a) {
        assert RowGrows(t, u, a) && RowGrows(u, v, a);
      }
      forall i | 0 <= i < |obligations| ensures Holds(v, obligations[i]) {
        if i == 0 { assert [first][0] == first; } else { assert obligations[i] == rest[i - 1]; }
      }
    }
  }

  /** Adding what is already held changes nothing and never conflicts. */
  lemma {:induction false} CoveredIsIdle(t: Table, obligations: seq<Obligation>)
    requires Covered(t, obligations)
    ensures Mark(t, obligations) == Some(t)
    decreases |obligations|
  {
    if obligations != [] {
      assert Holds(t, obligations[0]);
      assert Added(t, obligations[0]) == t;
      CoveredIsIdle(t, obligations[1..]);
    }
  }

  /** Leaving out the files already scanned with this protection changes nothing. */
  lemma {:induction false} SkippedFiles(w: World, t: Table, files: seq<Locator>, scanned: set<(Locator, bool)>,
      protected: bool)
    requires forall f :: f in files && (f, protected) in scanned ==> Covered(t, All(Blobs, w.contents(f), protected))
    ensures Mark(t, FilesOf(w, files, protected))
        == Mark(t, FilesOf(w, Unscanned(files, scanned, protected), protected))
    decreases |files|
  {
    if files != [] {
      var head := All(Blobs, w.contents(files[0]), protected);
      MarkAppend(t, head, FilesOf(w, files[1..], protected));
      var rest := Unscanned(files[1..], scanned, protected);
      if (files[0], protected) in scanned {
        CoveredIsIdle(t, head);
        assert Unscanned(files, scanned, protected) == rest;
        SkippedFiles(w, t, files[1..], scanned, protected);
      } else {
        assert ([files[0]] + rest)[1..] == rest;
        MarkAppend(t, head, FilesOf(w, rest, protected));
        if Mark(t, head).Some? {
          MarkGrows(t, head);
          var u := Mark(t, head).value;
          forall f | f in files[1..] && (f, protected) in scanned
              ensures Covered(u, All(Blobs, w.contents(f), protected)) {
            GrowsKeeps(t, u, All(Blobs, w.contents(f), protected));
          }
          SkippedFiles(w, u, files[1..], scanned, protected);
        }
      }
    }
  }

  function Unscanned(files: seq<Locator>, scanned: set<(Locator, bool)>, protected: bool): (r: seq<Locator>)
    ensures forall f :: f in r <==> f in files && (f, protected) !in scanned
  {
    if files == [] then []
    else (if (files[0], protected) in scanned then [] else [files[0]]) + Unscanned(files[1..], scanned, protected)
  }

  // ----- the index and the memoised inventory -----

  /** Everything remembered as scanned is held by the table. */
  ghost predicate Held(w: World, t: Table, layers: set<(LayerId, bool)>, files: set<(Locator, bool)>) {
    && (forall l, p :: (l, p) in layers ==> Covered(t, All(Records, w.physical(l), p)))
    && (forall f, p :: (f, p) in files ==> Covered(t, All(Blobs, w.contents(f), p)))
  }

  /** After any further marking, what was remembered is still held. */
  lemma StillHeld(w: World, t: Table, layers: set<(LayerId, bool)>, files: set<(Locator, bool)>,
      obligations: seq<Obligation>)
    requires Held(w, t, layers, files) && Mark(t, obligations).Some?
    ensures Held(w, Mark(t, obligations).value, layers, files)
  {
    var u := Mark(t, obligations).value;
    MarkGrows(t, obligations);
    forall l, p | (l, p) in layers ensures Covered(u, All(Records, w.physical(l), p)) {
      GrowsKeeps(t, u, All(Records, w.physical(l), p));
    }
    forall f, p | (f, p) in files ensures Covered(u, All(Blobs, w.contents(f), p)) {
      GrowsKeeps(t, u, All(Blobs, w.contents(f), p));
    }
  }

  class Index {
    var refs: Table
    var layers: set<(LayerId, bool)>     // scanned layers, by layer and protection
    var files: set<(Locator, bool)>      // scanned data files, by file and protection

    constructor ()
      ensures refs == map[] && layers == {} && files == {}
    {
      refs, layers, files := map[], {}, {};
    }

    ghost predicate Remembers(w: World) reads this { Held(w, refs, layers, files) }

    method Add(content: Content, protected: bool) returns (ok: bool)
      modifies this`refs
      ensures ok == Agrees(old(refs), content)
      ensures refs == if ok then Added(old(refs), (content, protected)) else old(refs)
    {
      var a := AddressOf(content);
      if a !in refs {
        refs := refs[a := Row(content.ref, !protected, protected)];
        return true;
      }
      var row := refs[a];
      if row.reference.digest != content.ref.digest || row.reference.size != content.ref.size { return false; }
      refs := refs[a := Row(row.reference, row.candidate || !protected, row.protected || protected)];
      ok := true;
    }

    method AddAll(store: Store, contents: seq<Ref>, protected: bool) returns (ok: bool)
      modifies this`refs
      ensures ok == Mark(old(refs), All(store, contents, protected)).Some?
      ensures ok ==> Mark(old(refs), All(store, contents, protected)) == Some(refs)
    {
      ghost var obligations := All(store, contents, protected);
      for i := 0 to |contents|
        invariant Mark(old(refs), obligations) == Mark(refs, obligations[i..])
      {
        ok := Add(Content(store, contents[i]), protected);
        if !ok { return; }
        assert obligations[i..][1..] == obligations[i + 1..];
      }
      ok := true;
    }

    /** A layer is read once per protection; the table ends as if it were read every time. */
    method InventoryLayer(w: World, layer: LayerId, protected: bool) returns (ok: bool)
      requires Remembers(w)
      modifies this
      ensures ok == Mark(old(refs), All(Records, w.physical(layer), protected)).Some?
      ensures ok ==> Mark(old(refs), All(Records, w.physical(layer), protected)) == Some(refs) && Remembers(w)
    {
      ghost var obligations := All(Records, w.physical(layer), protected);
      if (layer, protected) in layers {
        CoveredIsIdle(refs, obligations);
        return true;
      }
      ok := AddAll(Records, w.physical(layer), protected);
      if ok {
        StillHeld(w, old(refs), layers, files, obligations);
        MarkGrows(old(refs), obligations);
        layers := layers + {(layer, protected)};
      }
    }

    method InventoryLayers(w: World, list: seq<LayerId>, protected: bool) returns (ok: bool)
      requires Remembers(w)
      modifies this
      ensures ok == Mark(old(refs), LayersOf(w, list, protected)).Some?
      ensures ok ==> Mark(old(refs), LayersOf(w, list, protected)) == Some(refs) && Remembers(w)
    {
      for i := 0 to |list|
        invariant Remembers(w)
        invariant Mark(old(refs), LayersOf(w, list, protected)) == Mark(refs, LayersOf(w, list[i..], protected))
      {
        assert list[i..][1..] == list[i + 1..];
        MarkAppend(refs, All(Records, w.physical(list[i]), protected), LayersOf(w, list[i + 1..], protected));
        ok := InventoryLayer(w, list[i], protected);
        if !ok { return; }
      }
      ok := true;
    }

    /** Revision layers share their base's files, so each data file is read once per protection. */
    method InventoryFiles(w: World, list: seq<Locator>, protected: bool) returns (ok: bool)
      requires Remembers(w)
      modifies this
      ensures ok == Mark(old(refs), FilesOf(w, list, protected)).Some?
      ensures ok ==> Mark(old(refs), FilesOf(w, list, protected)) == Some(refs) && Remembers(w)
    {
      var unread := Unscanned(list, files, protected);
      SkippedFiles(w, refs, list, files, protected);
      for i := 0 to |unread|
        invariant Remembers(w)
        invariant Mark(old(refs), FilesOf(w, unread, protected)) == Mark(refs, FilesOf(w, unread[i..], protected))
        invariant forall j :: 0 <= j < i ==> Covered(refs, All(Blobs, w.contents(unread[j]), protected))
        invariant files == old(files) && layers == old(layers)
      {
        ghost var before, obligations := refs, All(Blobs, w.contents(unread[i]), protected);
        assert unread[i..][1..] == unread[i + 1..];
        MarkAppend(refs, obligations, FilesOf(w, unread[i + 1..], protected));
        ok := AddAll(Blobs, w.contents(unread[i]), protected);
        if !ok { return; }
        StillHeld(w, before, layers, files, obligations);
        MarkGrows(before, obligations);
        forall j | 0 <= j < i ensures Covered(refs, All(Blobs, w.contents(unread[j]), protected)) {
          GrowsKeeps(before, refs, All(Blobs, w.contents(unread[j]), protected));
        }
      }
      files := files + set f | f in unread :: (f, protected);
      ok := true;
    }

    method InventoryRecord(w: World, item: Item, targets: set<string>) returns (ok: bool)
      requires Remembers(w)
      modifies this
      ensures ok == (!Refuses(w, item, targets) && Mark(old(refs), Expand(w, item)).Some?)
      ensures ok ==> Mark(old(refs), Expand(w, item)) == Some(refs) && Remembers(w)
    {
      match item {
        case LayerItem(layer, protected) => ok := InventoryLayer(w, layer, protected);
        case JournalItem(content) => ok := InventoryBlobs(w, [content], true);
        case RecordItem(Value(None), _) => ok := true;
        case RecordItem(Value(Some(ref)), protected) => ok := InventoryBlobs(w, [ref], protected);
        case RecordItem(InlineState(occurrences), protected) => ok := !(protected && occurrences * targets != {});
        case RecordItem(BulkState(ref), protected) => ok := InventoryBulk(w, item, targets);
        case RecordItem(SelectedMembers(ref), protected) =>
          var layer := w.selection(ref);
          ghost var own, mine, theirs :=
              All(Blobs, [ref], protected), All(Records, w.physical(layer), protected),
              All(Blobs, w.selected(layer), protected);
          MarkAppend(refs, own + mine, theirs);
          MarkAppend(refs, own, mine);
          ok := InventoryBlobs(w, [ref], protected);
          if !ok { return; }
          ok := InventoryLayer(w, layer, protected);
          if !ok { return; }
          ok := InventoryBlobs(w, w.selected(layer), protected);
      }
    }

    method InventoryBlobs(w: World, list: seq<Ref>, protected: bool) returns (ok: bool)
      requires Remembers(w)
      modifies this
      ensures ok == Mark(old(refs), All(Blobs, list, protected)).Some?
      ensures ok ==> Mark(old(refs), All(Blobs, list, protected)) == Some(refs) && Remembers(w)
    {
      ok := AddAll(Blobs, list, protected);
      if ok { StillHeld(w, old(refs), layers, files, All(Blobs, list, protected)); }
    }

    /** The manifest, then the scope check, then the layers, then the blobs their files name. */
    method InventoryBulk(w: World, item: Item, targets: set<string>) returns (ok: bool)
      requires Remembers(w) && item.RecordItem? && item.record.BulkState?
      modifies this
      ensures ok == (!Refuses(w, item, targets) && Mark(old(refs), Expand(w, item)).Some?)
      ensures ok ==> Mark(old(refs), Expand(w, item)) == Some(refs) && Remembers(w)
    {
      var ref, protected := item.record.membership, item.protected;
      var m := w.manifest(ref);
      ghost var own, layered := All(Blobs, [ref], protected), LayersOf(w, m.layers, protected);
      ghost var filed := if m.entities.Some? then FilesOf(w, w.dataFiles(m.entities.value), protected) else [];
      MarkAppend(refs, own + layered, filed);
      MarkAppend(refs, own, layered);
      ok := InventoryBlobs(w, [ref], protected);
      if !ok { return; }
      if protected && m.occurrences * targets != {} { return false; }
      ok := InventoryLayers(w, m.layers, protected);
      if !ok || m.entities.None? { return; }
      ok := InventoryFiles(w, w.dataFiles(m.entities.value), protected);
    }

    /** The memoised inventory ends exactly where the unmemoised one does, refusal included. */
    method Inventory(w: World, items: seq<Item>, targets: set<string>) returns (ok: bool)
      requires Remembers(w)
      modifies this
      ensures ok == InventoryOf(w, old(refs), items, targets).Some?
      ensures ok ==> InventoryOf(w, old(refs), items, targets) == Some(refs)
    {
      for i := 0 to |items|
        invariant Remembers(w)
        invariant InventoryOf(w, old(refs), items, targets) == InventoryOf(w, refs, items[i..], targets)
      {
        assert items[i..][1..] == items[i + 1..];
        ok := InventoryRecord(w, items[i], targets);
        if !ok { return; }
      }
      ok := true;
    }
  }
}
