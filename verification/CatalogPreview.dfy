/** Counts and bounded samples of a catalog against the one before it. */
module CatalogPreview {
  import opened Prelude
  import opened Ordering
  import opened JsonChanges
  import opened PairedRows

  type Row = map<string, Json>

  datatype Status = Added | Removed | Changed | Unchanged

  function StatusOf(p: Pair<Row>): Status {
    if p.0.None? then Added else if p.1.None? then Removed else if p.0 == p.1 then Unchanged else Changed
  }

  function Count(pairs: seq<Pair<Row>>, status: Status): nat {
    if pairs == [] then 0
    else Count(pairs[..|pairs| - 1], status) + if StatusOf(pairs[|pairs| - 1]) == status then 1 else 0
  }

  // ----- samples -----

  datatype Sample<V> = Sample(entries: seq<V>, used: nat)

  /** Keeps an entry when there is a place for it and its bytes fit. */
  function Keep<V>(s: Sample<V>, v: V, size: V -> nat, limit: nat, maximum: nat): Sample<V> {
    if |s.entries| < limit && s.used < maximum && s.used + size(v) <= maximum then
        Sample(s.entries + [v], s.used + size(v)) else s
  }

  function Kept<V>(values: seq<V>, size: V -> nat, limit: nat, maximum: nat): Sample<V> {
    if values == [] then Sample([], 0)
    else Keep(Kept(values[..|values| - 1], size, limit, maximum), values[|values| - 1], size, limit, maximum)
  }

  function Bytes<V>(values: seq<V>, size: V -> nat): nat {
    if values == [] then 0 else Bytes(values[..|values| - 1], size) + size(values[|values| - 1])
  }

  /** The entries chosen, named by their places. */
  predicate Chooses<V(==)>(places: seq<nat>, values: seq<V>, entries: seq<V>) {
    && |places| == |entries|
    && (forall i :: 0 <= i < |places| ==> places[i] < |values| && entries[i] == values[places[i]])
    && (forall i, j :: 0 <= i < j < |places| ==> places[i] < places[j])
  }

  /** The sample has no place for this value: it holds all it may, or the value's bytes would take it past the limit. */
  predicate Full<V>(s: Sample<V>, v: V, size: V -> nat, limit: nat, maximum: nat) {
    |s.entries| >= limit || s.used + size(v) > maximum
  }

  /** The places of the values kept. */
  ghost function Places<V>(values: seq<V>, size: V -> nat, limit: nat, maximum: nat): (places: seq<nat>)
    ensures forall i :: 0 <= i < |places| ==> places[i] < |values|
  {
    if values == [] then []
    else
      var n := |values| - 1;
      var before := Kept(values[..n], size, limit, maximum);
      Places(values[..n], size, limit, maximum) + if Keep(before, values[n], size, limit, maximum) == before then []
          else [n]
  }

  /** A sample holds both limits, counts its own bytes, and is the subsequence of the values at its places. */
  lemma {:induction false} SampleBounded<V>(values: seq<V>, size: V -> nat, limit: nat, maximum: nat)
    ensures var s := Kept(values, size, limit, maximum);
      && |s.entries| <= limit && s.used == Bytes(s.entries, size) <= maximum
      && Chooses(Places(values, size, limit, maximum), values, s.entries)
  {
    if values != [] {
      var front, last := values[..|values| - 1], values[|values| - 1];
      SampleBounded(front, size, limit, maximum);
      var before, after := Kept(front, size, limit, maximum), Kept(values, size, limit, maximum);
      if after != before { assert after.entries[..|after.entries| - 1] == before.entries; }
    }
  }

  /** A value is left out only when the sample, as it ends, has no place for it. */
  lemma {:induction false} LeftOutOnlyWhenFull<V>(values: seq<V>, size: V -> nat, limit: nat, maximum: nat, i: nat)
    requires i < |values| && i !in Places(values, size, limit, maximum) && size(values[i]) > 0
    ensures Full(Kept(values, size, limit, maximum), values[i], size, limit, maximum)
    decreases |values|
  {
    var n := |values| - 1;
    var before := Kept(values[..n], size, limit, maximum);
    if i < n {
      LeftOutOnlyWhenFull(values[..n], size, limit, maximum, i);
    } else {
      KeepsUnlessFull(before, values[n], size, limit, maximum);
    }
  }

  lemma KeepsUnlessFull<V>(s: Sample<V>, v: V, size: V -> nat, limit: nat, maximum: nat)
    requires size(v) > 0
    ensures Keep(s, v, size, limit, maximum) == s <==> Full(s, v, size, limit, maximum)
  {
    assert |s.entries + [v]| != |s.entries|;
  }

  /** The truncation flag: a sample is the whole list exactly when it is as long. */
  lemma WholeIff<V>(values: seq<V>, size: V -> nat, limit: nat, maximum: nat)
    ensures var s := Kept(values, size, limit, maximum);
      |s.entries| <= |values| && (|values| > |s.entries| <==> s.entries != values)
  {
    SampleBounded(values, size, limit, maximum);
    var s, places := Kept(values, size, limit, maximum), Places(values, size, limit, maximum);
    PlacesGrow(places, |values|);
    if |s.entries| == |values| {
      forall i | 0 <= i < |values| ensures places[i] == i {
        PlacesAtLeast(places, i);
        PlacesAtMost(places, |values|, i);
      }
    }
  }

  predicate Rising(places: seq<nat>) { forall i, j :: 0 <= i < j < |places| ==> places[i] < places[j] }

  lemma {:induction false} PlacesAtLeast(places: seq<nat>, i: nat)
    requires Rising(places) && i < |places|
    ensures places[i] >= i
  {
    if i > 0 { PlacesAtLeast(places, i - 1); }
  }

  lemma {:induction false} PlacesAtMost(places: seq<nat>, n: nat, i: nat)
    requires Rising(places) && i < |places| && forall k :: 0 <= k < |places| ==> places[k] < n
    ensures places[i] <= n - (|places| - i)
    decreases |places| - i
  {
    if i < |places| - 1 { PlacesAtMost(places, n, i + 1); }
  }

  lemma PlacesGrow(places: seq<nat>, n: nat)
    requires Rising(places) && forall k :: 0 <= k < |places| ==> places[k] < n
    ensures |places| <= n
  {
    if places != [] { PlacesAtLeast(places, |places| - 1); }
  }

  // ----- counts -----

  /** Every newer row is added, changed or unchanged; every older one removed, changed or unchanged. */
  lemma {:induction false} CountsAddUp(pairs: seq<Pair<Row>>)
    requires Filled(pairs)
    ensures Count(pairs, Added) + Count(pairs, Changed) + Count(pairs, Unchanged) == |News(pairs)|
    ensures Count(pairs, Removed) + Count(pairs, Changed) + Count(pairs, Unchanged) == |Olds(pairs)|
  {
    if pairs != [] { CountsAddUp(pairs[..|pairs| - 1]); }
  }

  function Keys(key: Row -> seq<int>, rows: seq<Row>): set<seq<int>> { set r | r in rows :: key(r) }

  predicate Filled(pairs: seq<Pair<Row>>) { forall i :: 0 <= i < |pairs| ==> pairs[i].0.Some? || pairs[i].1.Some? }

  function KeysWith(key: Row -> seq<int>, pairs: seq<Pair<Row>>, status: Status): set<seq<int>>
    requires Filled(pairs)
  {
    if pairs == [] then {}
    else
      var last := pairs[|pairs| - 1];
      KeysWith(key, pairs[..|pairs| - 1], status) + if StatusOf(last) == status then {KeyOf(key, last)} else {}
  }

  lemma {:induction false} KeysWithHas(key: Row -> seq<int>, pairs: seq<Pair<Row>>, status: Status, k: seq<int>)
    requires Filled(pairs)
    ensures k in KeysWith(key, pairs, status) <==>
        exists i :: 0 <= i < |pairs| && StatusOf(pairs[i]) == status && KeyOf(key, pairs[i]) == k
  {
    if pairs != [] {
      var n := |pairs| - 1;
      KeysWithHas(key, pairs[..n], status, k);
      if k in KeysWith(key, pairs[..n], status) {
        var i :| 0 <= i < n && StatusOf(pairs[..n][i]) == status && KeyOf(key, pairs[..n][i]) == k;
        assert StatusOf(pairs[i]) == status && KeyOf(key, pairs[i]) == k;
      }
      if i :| 0 <= i < n && StatusOf(pairs[i]) == status && KeyOf(key, pairs[i]) == k {
        assert StatusOf(pairs[..n][i]) == status && KeyOf(key, pairs[..n][i]) == k;
      }
    }
  }

  lemma {:induction false} CountIsKeys(key: Row -> seq<int>, pairs: seq<Pair<Row>>, status: Status)
    requires Filled(pairs) && forall i, j :: 0 <= i < j < |pairs| ==> Before(KeyOf(key, pairs[i]), KeyOf(key, pairs[j]))
    ensures Count(pairs, status) == |KeysWith(key, pairs, status)|
  {
    if pairs != [] {
      var n := |pairs| - 1;
      CountIsKeys(key, pairs[..n], status);
      KeysWithHas(key, pairs[..n], status, KeyOf(key, pairs[n]));
      BeforeAsymmetric(KeyOf(key, pairs[n]), KeyOf(key, pairs[n]));
    }
  }

  /** The counts in terms of the two catalogs alone: added are the keys only the newer one has, removed those only
      the older one has. */
  lemma CountsMean(key: Row -> seq<int>, older: seq<Row>, newer: seq<Row>, pairs: seq<Pair<Row>>)
    requires IsJoin(Before, key, older, newer, pairs)
    ensures Count(pairs, Added) == |Keys(key, newer) - Keys(key, older)|
    ensures Count(pairs, Removed) == |Keys(key, older) - Keys(key, newer)|
  {
    BeforeStrictTotal();
    assert forall i :: 0 <= i < |pairs| ==> PairFits(key, pairs[i]);
    CountIsKeys(key, pairs, Added);
    CountIsKeys(key, pairs, Removed);
    forall k ensures k in KeysWith(key, pairs, Added) <==> k in Keys(key, newer) && k !in Keys(key, older) {
      KeyStatus(key, older, newer, pairs, k);
    }
    forall k ensures k in KeysWith(key, pairs, Removed) <==> k in Keys(key, older) && k !in Keys(key, newer) {
      KeyStatus(key, older, newer, pairs, k);
    }
    assert KeysWith(key, pairs, Added) == Keys(key, newer) - Keys(key, older);
    assert KeysWith(key, pairs, Removed) == Keys(key, older) - Keys(key, newer);
  }

  lemma KeyStatus(key: Row -> seq<int>, older: seq<Row>, newer: seq<Row>, pairs: seq<Pair<Row>>, k: seq<int>)
    requires IsJoin(Before, key, older, newer, pairs) && Filled(pairs)
    ensures k in KeysWith(key, pairs, Added) <==> k in Keys(key, newer) && k !in Keys(key, older)
    ensures k in KeysWith(key, pairs, Removed) <==> k in Keys(key, older) && k !in Keys(key, newer)
  {
    BeforeStrictTotal();
    KeysWithHas(key, pairs, Added, k);
    KeysWithHas(key, pairs, Removed, k);
    if k in Keys(key, older) || k in Keys(key, newer) {
      var r :| (r in older || r in newer) && key(r) == k;
      EveryKeyOnce(Before, key, older, newer, pairs, r);
      var i :| 0 <= i < |pairs| && KeyOf(key, pairs[i]) == k;
      AloneIff(Before, key, older, newer, pairs, i);
    } else {
      forall i | 0 <= i < |pairs| ensures KeyOf(key, pairs[i]) != k { AloneIff(Before, key, older, newer, pairs, i); }
    }
  }

  // ----- the entries of the comparison -----

  datatype Entry = Entry(of: Row, status: Status, fields: seq<string>, differences: seq<Change>)

  /** An absent row reads as null in the differences and as an empty row in the changed fields. */
  function EntryOf(p: Pair<Row>): Entry
    requires p.0.Some? || p.1.Some?
  {
    var left, right := if p.0.Some? then p.0.value else map[], if p.1.Some? then p.1.value else map[];
    Entry(if p.0.Some? then p.0.value
        else p.1.value, StatusOf(p), ChangedFields(left, right), Changes(Side(p.0), Side(p.1), ""))
  }

  function Side(row: Option<Row>): Json { if row.Some? then Object(row.value) else Null }

  function ChangedFields(left: Row, right: Row): seq<string> {
    Filter(left, right, Sorted(left.Keys + right.Keys))
  }

  function Filter(left: Row, right: Row, names: seq<string>): seq<string> {
    if names == [] then []
    else (if Get(left, names[0]) != Get(right, names[0]) then [names[0]] else []) + Filter(left, right, names[1..])
  }

  lemma {:induction false} FilterHas(left: Row, right: Row, names: seq<string>, name: string)
    ensures name in Filter(left, right, names) <==> name in names && Get(left, name) != Get(right, name)
  {
    if names != [] { FilterHas(left, right, names[1..], name); }
  }

  /** For a changed row the fields are exactly the first tokens of its differences. */
  lemma FieldsAreFirstTokens(left: Row, right: Row, name: string)
    requires left != right
    ensures name in ChangedFields(left, right) <==>
      exists i :: 0 <= i < |Changes(Object(left), Object(right), "")| &&
          Within(Changes(Object(left), Object(right), "")[i], name)
  {
    var older, newer, names := Object(left), Object(right), Sorted(left.Keys + right.Keys);
    FilterHas(left, right, names, name);
    FirstTokens(older, newer, names, name);
    assert Diff(older, newer) == DiffKeys(older, newer, names);
    StartsWithin(older, newer, name);
  }

  /** The change is in the member of that name. */
  predicate Within(c: Change, name: string) {
    var tokens := Tokens(c.path);
    tokens.Some? && tokens.value != [] && tokens.value[0] == name
  }

  lemma StartsWithin(older: Json, newer: Json, name: string)
    ensures StartsWith(Diff(older, newer), name) <==>
      exists i :: 0 <= i < |Changes(older, newer, "")| && Within(Changes(older, newer, "")[i], name)
  {
    var c, edits := Changes(older, newer, ""), Diff(older, newer);
    EditsAreChanges(older, newer);
    if StartsWith(edits, name) {
      var i :| 0 <= i < |edits| && edits[i].tokens != [] && edits[i].tokens[0] == name;
      assert Within(c[i], name);
    }
  }

  ghost predicate StartsWith(edits: seq<Edit>, name: string) {
    exists i :: 0 <= i < |edits| && edits[i].tokens != [] && edits[i].tokens[0] == name
  }

  lemma StartsUnder(key: string, edits: seq<Edit>, more: seq<Edit>, name: string)
    ensures StartsWith(Under(key, edits) + more, name) <==> (edits != [] && name == key) || StartsWith(more, name)
  {
    var all := Under(key, edits) + more;
    if edits != [] && name == key { assert all[0].tokens[0] == name; }
    if StartsWith(more, name) {
      var i :| 0 <= i < |more| && more[i].tokens != [] && more[i].tokens[0] == name;
      assert all[|edits| + i] == more[i];
    }
    if StartsWith(all, name) {
      var i :| 0 <= i < |all| && all[i].tokens != [] && all[i].tokens[0] == name;
      if i >= |edits| { assert all[i] == more[i - |edits|]; }
    }
  }

  lemma {:induction false} FirstTokens(older: Json, newer: Json, names: seq<string>, name: string)
    requires older.Object? && newer.Object? && forall k :: k in names ==> k in older.members || k in newer.members
    ensures StartsWith(DiffKeys(older, newer, names), name) <==>
        name in names && Get(older.members, name) != Get(newer.members, name)
  {
    if names != [] {
      var key, rest := names[0], names[1..];
      FirstTokens(older, newer, rest, name);
      var edits := KeyEdits(older, newer, key);
      StartsUnder(key, edits, DiffKeys(older, newer, rest), name);
      if key in older.members && key in newer.members { Rebuilds(older.members[key], newer.members[key]); }
      assert edits == [] <==> Get(older.members, key) == Get(newer.members, key);
    }
  }

  function Member(row: Option<Row>, name: string): Option<Json> { if row.Some? then Get(row.value, name) else None }

  lemma {:induction false} FilterKeeps(left: Row, right: Row, names: seq<string>)
    requires Ascending(StringBefore, names)
    ensures Ascending(StringBefore, Filter(left, right, names))
  {
    if names != [] {
      var rest := Filter(left, right, names[1..]);
      FilterKeeps(left, right, names[1..]);
      forall k | 0 <= k < |rest| ensures StringBefore(names[0], rest[k]) {
        FilterHas(left, right, names[1..], rest[k]);
        var j :| 0 <= j < |names[1..]| && names[1..][j] == rest[k];
        assert names[j + 1] == rest[k];
      }
    }
  }

  /** What an entry tells of its pair: the older row where there is one; which of the rows are there and whether they
      differ; in order, the names under which they differ; and differences that make the newer row of the older. */
  lemma EntryTells(p: Pair<Row>, name: string)
    requires p.0.Some? || p.1.Some?
    ensures var e := EntryOf(p);
      && Some(e.of) == (if p.0.Some? then p.0 else p.1)
      && (e.status == Added <==> p.0.None?) && (e.status == Removed <==> p.1.None?)
      && (e.status == Changed <==> p.0.Some? && p.1.Some? && p.0 != p.1)
      && (name in e.fields <==> Member(p.0, name) != Member(p.1, name)) && Ascending(StringBefore, e.fields)
      && Apply(Some(Side(p.0)), e.differences) == Some(Side(p.1))
  {
    var left, right := if p.0.Some? then p.0.value else map[], if p.1.Some? then p.1.value else map[];
    FilterHas(left, right, Sorted(left.Keys + right.Keys), name);
    FilterKeeps(left, right, Sorted(left.Keys + right.Keys));
    assert name !in left.Keys + right.Keys ==> Get(left, name) == None && Get(right, name) == None;
    ChangesRebuild(Side(p.0), Side(p.1));
  }

  /** The rows of this pair are not the same, and this is its entry. */
  predicate Gives(p: Pair<Row>, e: Entry) { (p.0.Some? || p.1.Some?) && p.0 != p.1 && e == EntryOf(p) }

  predicate SomeGives(pairs: seq<Pair<Row>>, e: Entry) { exists p :: p in pairs && Gives(p, e) }

  /** There is an entry for every pair whose rows are not the same, and no other. */
  lemma {:induction false} EntriesAre(pairs: seq<Pair<Row>>, e: Entry)
    requires Filled(pairs)
    ensures e in Entries(pairs) <==> SomeGives(pairs, e)
  {
    if pairs != [] {
      EntriesAre(pairs[..|pairs| - 1], e);
      LastGives(pairs, e);
      SomeSplits(pairs, e);
    }
  }

  lemma SomeSplits(pairs: seq<Pair<Row>>, e: Entry)
    requires pairs != []
    ensures SomeGives(pairs, e) <==> SomeGives(pairs[..|pairs| - 1], e) || Gives(pairs[|pairs| - 1], e)
  {
    LastIn(pairs);
  }

  lemma LastIn<V>(s: seq<V>)
    requires s != []
    ensures forall x :: x in s <==> x in s[..|s| - 1] || x == s[|s| - 1]
  {
    assert s == s[..|s| - 1] + [s[|s| - 1]];
  }

  lemma LastGives(pairs: seq<Pair<Row>>, e: Entry)
    requires Filled(pairs) && pairs != []
    ensures e in Entries(pairs) <==> e in Entries(pairs[..|pairs| - 1]) || Gives(pairs[|pairs| - 1], e)
  {
    assert StatusOf(pairs[|pairs| - 1]) == Unchanged <==> pairs[|pairs| - 1].0 == pairs[|pairs| - 1].1;
  }

  /** The entries of every pair that is not unchanged. */
  function Entries(pairs: seq<Pair<Row>>): seq<Entry>
    requires Filled(pairs)
  {
    if pairs == [] then []
    else
      var last := pairs[|pairs| - 1];
      Entries(pairs[..|pairs| - 1]) + if StatusOf(last) == Unchanged then [] else [EntryOf(last)]
  }

  lemma {:induction false} EntriesCounted(pairs: seq<Pair<Row>>)
    requires Filled(pairs)
    ensures |Entries(pairs)| == Count(pairs, Added) + Count(pairs, Removed) + Count(pairs, Changed)
  {
    if pairs != [] { EntriesCounted(pairs[..|pairs| - 1]); }
  }

  datatype Counts = Counts(added: nat, removed: nat, changed: nat, identical: nat)

  datatype Comparison = Comparison(counts: Counts, changeCount: nat, sample: Sample<Entry>, truncated: bool)

  datatype Preview = Preview(sample: Sample<Row>, truncated: bool, comparison: Option<Comparison>)

  method AppendSample<V>(sample: seq<V>, v: V, used: nat, size: V -> nat, limit: nat, maximum: nat)
      returns (s: Sample<V>)
    ensures s == Keep(Sample(sample, used), v, size, limit, maximum)
  {
    if |sample| < limit && used < maximum {
      var bytes := size(v);
      if used + bytes <= maximum { return Sample(sample + [v], used + bytes); }
    }
    s := Sample(sample, used);
  }

  datatype Tally = Tally(sample: Sample<Row>, counts: Counts, changes: Sample<Entry>)

  function CountsOf(pairs: seq<Pair<Row>>): Counts {
    Counts(Count(pairs, Added), Count(pairs, Removed), Count(pairs, Changed), Count(pairs, Unchanged))
  }

  /** How much room the samples have, and what an entry costs. */
  datatype Limits = Limits(limit: nat, maximum: nat, row: Row -> nat, entry: Entry -> nat)

  ghost predicate Tallied(pairs: seq<Pair<Row>>, hasPrevious: bool, l: Limits, t: Tally)
    requires Filled(pairs)
  {
    && t.sample == Kept(News(pairs), l.row, l.limit, l.maximum)
    && (hasPrevious ==> t.changes == Kept(Entries(pairs), l.entry, l.limit, l.maximum))
    && (hasPrevious ==> t.counts == CountsOf(pairs))
  }

  method TakePair(p: Pair<Row>, hasPrevious: bool, l: Limits, t: Tally, ghost before: seq<Pair<Row>>) returns (r: Tally)
    requires Filled(before) && (p.0.Some? || p.1.Some?) && Tallied(before, hasPrevious, l, t)
    ensures Filled(before + [p]) && Tallied(before + [p], hasPrevious, l, r)
  {
    assert (before + [p])[..|before|] == before;
    var sample := TakeRow(p, l, t.sample, before);
    if !hasPrevious { return t.(sample := sample); }
    var changes := TakeChange(p, l, t.changes, before);
    CountsPair(before, p);
    r := Tally(sample, CountPair(t.counts, StatusOf(p)), changes);
  }

  method TakeRow(p: Pair<Row>, l: Limits, sample: Sample<Row>, ghost before: seq<Pair<Row>>) returns (r: Sample<Row>)
    requires sample == Kept(News(before), l.row, l.limit, l.maximum)
    ensures r == Kept(News(before + [p]), l.row, l.limit, l.maximum)
  {
    assert (before + [p])[..|before|] == before;
    r := sample;
    if p.1.Some? {
      ListedLast(News(before), p.1.value, l.row, l.limit, l.maximum);
      r := AppendSample(r.entries, p.1.value, r.used, l.row, l.limit, l.maximum);
    } else {
      assert News(before + [p]) == News(before);
    }
  }

  lemma CountsPair(before: seq<Pair<Row>>, p: Pair<Row>)
    ensures CountsOf(before + [p]) == CountPair(CountsOf(before), StatusOf(p))
  {
    assert (before + [p])[..|before|] == before;
  }

  function CountPair(counts: Counts, status: Status): Counts {
    match status
    case Added => counts.(added := counts.added + 1)
    case Removed => counts.(removed := counts.removed + 1)
    case Changed => counts.(changed := counts.changed + 1)
    case Unchanged => counts.(identical := counts.identical + 1)
  }

  method TakeChange(p: Pair<Row>, l: Limits, sample: Sample<Entry>, ghost before: seq<Pair<Row>>)
      returns (changes: Sample<Entry>)
    requires Filled(before) && (p.0.Some? || p.1.Some?) && sample == Kept(Entries(before), l.entry, l.limit, l.maximum)
    ensures Filled(before + [p]) && changes == Kept(Entries(before + [p]), l.entry, l.limit, l.maximum)
  {
    AppendsPair(before, p);
    changes := sample;
    if StatusOf(p) != Unchanged {
      ListedLast(Entries(before), EntryOf(p), l.entry, l.limit, l.maximum);
      if |changes.entries| < l.limit && changes.used < l.maximum {
        changes := AppendSample(changes.entries, EntryOf(p), changes.used, l.entry, l.limit, l.maximum);
      }
    }
  }

  lemma AppendsPair(before: seq<Pair<Row>>, p: Pair<Row>)
    requires Filled(before) && (p.0.Some? || p.1.Some?)
    ensures Filled(before + [p])
    ensures Entries(before + [p]) == if StatusOf(p) == Unchanged then Entries(before)
        else Entries(before) + [EntryOf(p)]
  {
    assert (before + [p])[..|before|] == before;
  }

  lemma ListedLast<V>(values: seq<V>, v: V, size: V -> nat, limit: nat, maximum: nat)
    ensures Kept(values + [v], size, limit, maximum)
        == Keep(Kept(values, size, limit, maximum), v, size, limit, maximum)
  {
    assert (values + [v])[..|values|] == values;
  }

  method TallyAll(all: seq<Pair<Row>>, hasPrevious: bool, l: Limits) returns (t: Tally)
    requires Filled(all)
    ensures Tallied(all, hasPrevious, l, t)
  {
    t := Tally(Sample([], 0), Counts(0, 0, 0, 0), Sample([], 0));
    var n := 0;
    while n < |all|
      invariant 0 <= n <= |all| && Filled(all[..n]) && Tallied(all[..n], hasPrevious, l, t)
    {
      assert all[..n + 1] == all[..n] + [all[n]];
      t := TakePair(all[n], hasPrevious, l, t, all[..n]);
      n := n + 1;
    }
    assert all[..n] == all;
  }

  lemma Summarises(key: Row -> seq<int>, older: seq<Row>, newer: seq<Row>, pairs: seq<Pair<Row>>, l: Limits)
    requires IsJoin(Before, key, older, newer, pairs) && Filled(pairs)
    ensures var c := CountsOf(pairs);
      && c.added + c.changed + c.identical == |newer| && c.removed + c.changed + c.identical == |older|
      && c.added == |Keys(key, newer) - Keys(key, older)| && c.removed == |Keys(key, older) - Keys(key, newer)|
      && c.added + c.removed + c.changed == |Entries(pairs)|
  {
    CountsAddUp(pairs);
    CountsMean(key, older, newer, pairs);
    EntriesCounted(pairs);
  }

  /** The samples, the counts and the flags, over one pass of the merge. */
  method PreviewCatalog(key: Row -> seq<int>, older: seq<Row>, newer: seq<Row>, hasPrevious: bool, l: Limits)
    returns (preview: Preview, ghost pairs: seq<Pair<Row>>)
    requires Ordered(Before, key, older) && Ordered(Before, key, newer)
    ensures IsJoin(Before, key, older, newer, pairs) && Filled(pairs)
    ensures preview.sample == Kept(newer, l.row, l.limit, l.maximum)
    ensures preview.truncated <==> preview.sample.entries != newer
    ensures preview.comparison.Some? <==> hasPrevious
    ensures hasPrevious ==> Compares(key, older, newer, pairs, l, preview.comparison.value)
  {
    BeforeStrictTotal();
    var all := Paired(Before, key, older, newer);
    pairs := all;
    assert forall i :: 0 <= i < |all| ==> PairFits(key, all[i]);
    var t := TallyAll(all, hasPrevious, l);
    Summarises(key, older, newer, all, l);
    WholeIff(newer, l.row, l.limit, l.maximum);
    WholeIff(Entries(all), l.entry, l.limit, l.maximum);
    var comparison := None;
    if hasPrevious {
      var total := t.counts.added + t.counts.removed + t.counts.changed;
      comparison := Some(Comparison(t.counts, total, t.changes, total > |t.changes.entries|));
    }
    preview := Preview(t.sample, |newer| > |t.sample.entries|, comparison);
  }

  /** What the comparison reports: the counts add up to both catalogs, and the sample is bounded and truthful. */
  ghost predicate Compares(key: Row -> seq<int>, older: seq<Row>, newer: seq<Row>, pairs: seq<Pair<Row>>, l: Limits,
      c: Comparison)
    requires Filled(pairs)
  {
    && c.counts.added + c.counts.changed + c.counts.identical == |newer|
    && c.counts.removed + c.counts.changed + c.counts.identical == |older|
    && c.counts.added == |Keys(key, newer) - Keys(key, older)|
    && c.counts.removed == |Keys(key, older) - Keys(key, newer)|
    && c.counts.changed == Count(pairs, Changed)
    && c.changeCount == |Entries(pairs)|
    && c.sample == Kept(Entries(pairs), l.entry, l.limit, l.maximum)
    && (c.truncated <==> c.sample.entries != Entries(pairs))
  }
}
