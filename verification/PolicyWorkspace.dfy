/** The durable workspace of a catalog policy: rows by namespace and key. */
module PolicyWorkspace {
  // Rows are read back in key order; a crash rolls back to the last commit.

  import opened Prelude
  import opened Ordering
  import opened OrderedKey

  const PAGE_BYTES := 65536

  /** Pages of the database, with a copy of each, its metadata and a header kept free for the journal. */
  function ScratchPages(allowance: int): Option<int> {
    var pages := (allowance - PAGE_BYTES) / (2 * PAGE_BYTES + 8);
    if pages < 2 then None else Some(pages)
  }

  /** The database and a journal of every page fit, and one more page would not; it is refused exactly when not even
      two pages fit. */
  lemma PagesFit(allowance: int)
    ensures match ScratchPages(allowance)
      case Some(pages) =>
        pages * PAGE_BYTES + (pages * (PAGE_BYTES + 8) + PAGE_BYTES) <= allowance
        < (pages + 1) * PAGE_BYTES + ((pages + 1) * (PAGE_BYTES + 8) + PAGE_BYTES)
      case None => allowance < 2 * PAGE_BYTES + (2 * (PAGE_BYTES + 8) + PAGE_BYTES)
  {
  }

  type Id = (Text, seq<Text>)

  type Place = (Text, seq<int>)

  /** The stored rows hold exactly these entries, each under the bytes of its key. */
  ghost predicate Stores<P(!new)>(rows: map<Place, P>, entries: map<Id, P>) {
    && (forall id :: id in entries ==> IsKey(id.1) && PlaceOf(id) in rows && rows[PlaceOf(id)] == entries[id])
    && (forall p :: p in rows ==> exists id :: id in entries && PlaceOf(id) == p)
  }

  function PlaceOf(id: Id): Place { (id.0, Key(id.1)) }

  lemma OnePlace(a: Id, b: Id)
    requires IsKey(a.1) && IsKey(b.1)
    ensures PlaceOf(a) == PlaceOf(b) <==> a == b
  {
    KeyOrder(a.1, b.1);
  }

  lemma Found<P(!new)>(rows: map<Place, P>, entries: map<Id, P>, id: Id)
    requires Stores(rows, entries) && IsKey(id.1)
    ensures PlaceOf(id) in rows <==> id in entries
  {
    if PlaceOf(id) in rows {
      var other :| other in entries && PlaceOf(other) == PlaceOf(id);
      OnePlace(other, id);
    }
  }

  lemma StoresOne<P(!new)>(rows: map<Place, P>, entries: map<Id, P>, id: Id, payload: P)
    requires Stores(rows, entries) && IsKey(id.1)
    ensures Stores(rows[PlaceOf(id) := payload], entries[id := payload])
  {
    forall other | other in entries && other != id ensures PlaceOf(other) != PlaceOf(id) { OnePlace(other, id); }
    var after := entries[id := payload];
    var more := rows[PlaceOf(id) := payload];
    forall p | p in more ensures exists other :: other in after && PlaceOf(other) == p {
      if p == PlaceOf(id) {
        assert id in after;
      } else {
        var other :| other in entries && PlaceOf(other) == p;
        assert other in after;
      }
    }
  }

  /** The keys of a namespace after a key, in order, each once, and their payloads. */
  ghost predicate InOrder<P(!new)>(entries: map<Id, P>, namespace: Text, after: Option<seq<Text>>, keys: seq<seq<Text>>,
      payloads: seq<P>) {
    && |keys| == |payloads|
    && (forall i, j :: 0 <= i < j < |keys| ==> KeyBefore(keys[i], keys[j]))
    && (forall k :: k in keys <==> (namespace, k) in entries && (after.Some? ==> KeyBefore(after.value, k)))
    && (forall i :: 0 <= i < |keys| ==> (namespace, keys[i]) in entries && payloads[i] == entries[(namespace, keys[i])])
  }

  class Workspace<P(!new)> {
    var rows: map<Place, P>
    var committed: map<Place, P>
    ghost var entries: map<Id, P>
    ghost var saved: map<Id, P>

    ghost predicate Valid()
      reads this
    { Stores(rows, entries) && Stores(committed, saved) }

    constructor ()
      ensures Valid() && entries == map[] && saved == map[]
    {
      rows, committed := map[], map[];
      entries, saved := map[], map[];
    }

    /** The bytes of a key, or what is wrong with it. */
    method Locate(namespace: Text, key: seq<Text>) returns (r: Result<seq<int>, Error>)
      requires Valid()
      ensures r == if Blank(namespace) then Err(EmptyPart) else OkKey(key)
      ensures r.Ok? ==> IsKey(key) && r.value == Key(key)
      ensures r.Ok? ==> ((namespace, r.value) in rows <==> (namespace, key) in entries)
      ensures r.Ok? && (namespace, r.value) in rows ==> rows[(namespace, r.value)] == entries[(namespace, key)]
    {
      if Blank(namespace) { return Err(EmptyPart); }
      r := Encode(key);
      KeyMeans(key);
      if r.Ok? { Found(rows, entries, (namespace, key)); }
    }

    method Write(namespace: Text, key: seq<Text>, bytes: seq<int>, payload: P)
      requires Valid() && IsKey(key) && bytes == Key(key)
      modifies this
      ensures Valid() && saved == old(saved) && entries == old(entries)[(namespace, key) := payload]
    {
      StoresOne(rows, entries, (namespace, key), payload);
      rows := rows[(namespace, bytes) := payload];
      entries := entries[(namespace, key) := payload];
    }

    /** `full` says that the page limit stops the write. */
    method PutPayload(namespace: Text, key: seq<Text>, payload: P, full: bool) returns (r: Result<(), Error>)
      requires Valid()
      modifies this
      ensures Valid() && saved == old(saved)
      ensures r == if Blank(namespace) then Err(EmptyPart)
        else if OkKey(key).Err? then Err(OkKey(key).error)
        else if (namespace, key) in old(entries) then Err(Duplicate)
        else if full then Err(Full) else Ok(())
      ensures entries == if r.Ok? then old(entries)[(namespace, key) := payload] else old(entries)
    {
      var bytes := Locate(namespace, key);
      if bytes.Err? { return Err(bytes.error); }
      if (namespace, bytes.value) in rows { return Err(Duplicate); }
      if full { return Err(Full); }
      Write(namespace, key, bytes.value, payload);
      r := Ok(());
    }

    method Replace(namespace: Text, key: seq<Text>, payload: P, full: bool) returns (r: Result<(), Error>)
      requires Valid()
      modifies this
      ensures Valid() && saved == old(saved)
      ensures r == if Blank(namespace) then Err(EmptyPart)
        else if OkKey(key).Err? then Err(OkKey(key).error)
        else if (namespace, key) !in old(entries) then Err(Absent)
        else if full then Err(Full) else Ok(())
      ensures entries == if r.Ok? then old(entries)[(namespace, key) := payload] else old(entries)
    {
      var bytes := Locate(namespace, key);
      if bytes.Err? { return Err(bytes.error); }
      if (namespace, bytes.value) !in rows { return Err(Absent); }
      if full { return Err(Full); }
      Write(namespace, key, bytes.value, payload);
      r := Ok(());
    }

    method Get(namespace: Text, key: seq<Text>) returns (r: Result<Option<P>, Error>)
      requires Valid()
      ensures r == if Blank(namespace) then Err(EmptyPart)
        else if OkKey(key).Err? then Err(OkKey(key).error)
        else Ok(if (namespace, key) in entries then Some(entries[(namespace, key)]) else None)
    {
      var bytes := Locate(namespace, key);
      if bytes.Err? { return Err(bytes.error); }
      r := Ok(if (namespace, bytes.value) in rows then Some(rows[(namespace, bytes.value)]) else None);
    }

    /** Payloads of the namespace in key order, after a key if one is given. */
    method IterOrdered(namespace: Text, after: Option<seq<Text>>)
        returns (r: Result<seq<P>, Error>, ghost keys: seq<seq<Text>>)
      requires Valid()
      ensures r.Err? <==> Blank(namespace) || (after.Some? && OkKey(after.value).Err?)
      ensures r.Ok? ==> InOrder(entries, namespace, after, keys, r.value)
    {
      keys := [];
      if Blank(namespace) { return Err(EmptyPart), []; }
      var low: Option<seq<int>> := None;
      if after.Some? {
        KeyMeans(after.value);
        var bytes := Encode(after.value);
        if bytes.Err? { return Err(bytes.error), []; }
        low := Some(bytes.value);
      }
      var payloads;
      payloads, keys := Select(namespace, after, low);
      r := Ok(payloads);
    }

    method Select(namespace: Text, ghost after: Option<seq<Text>>, low: Option<seq<int>>)
        returns (payloads: seq<P>, ghost keys: seq<seq<Text>>)
      requires Valid() && after.Some? == low.Some? &&
          (after.Some? ==> IsKey(after.value) && low.value == Key(after.value))
      ensures InOrder(entries, namespace, after, keys, payloads)
    {
      BeforeStrictTotal();
      var order := Listing(Before, set p | p in rows && p.0 == namespace &&
          (low.None? || Before(low.value, p.1)) :: p.1);
      assert forall b :: b in order <==> (namespace, b) in rows && (low.Some? ==> Before(low.value, b));
      keys := KeysOf(rows, entries, namespace, order);
      Selects(rows, entries, namespace, after, low, order, keys);
      payloads := Read(namespace, order);
    }

    method Read(namespace: Text, order: seq<seq<int>>) returns (payloads: seq<P>)
      requires forall b :: b in order ==> (namespace, b) in rows
      ensures |payloads| == |order| && forall i :: 0 <= i < |order| ==> payloads[i] == rows[(namespace, order[i])]
    {
      payloads := [];
      var i := 0;
      while i < |order|
        invariant 0 <= i <= |order| && |payloads| == i
        invariant forall j :: 0 <= j < i ==> payloads[j] == rows[(namespace, order[j])]
      {
        payloads := payloads + [rows[(namespace, order[i])]];
        i := i + 1;
      }
    }

    /** What was written so far survives. */
    method Commit()
      requires Valid()
      modifies this
      ensures Valid() && entries == old(entries) && saved == old(entries)
    {
      committed := rows;
      saved := entries;
    }

    /** A kill and a new opening: exactly the last commit is there. */
    method Reopen()
      requires Valid()
      modifies this
      ensures Valid() && entries == old(saved) && saved == old(saved)
    {
      rows := committed;
      entries := saved;
    }
  }

  /** The tuples whose bytes these are. */
  ghost function KeysOf<P(!new)>(rows: map<Place, P>, entries: map<Id, P>, namespace: Text,
      order: seq<seq<int>>): (keys: seq<seq<Text>>)
    requires Stores(rows, entries) && forall b :: b in order ==> (namespace, b) in rows
    ensures |keys| == |order|
    ensures forall i :: 0 <= i < |keys| ==>
        (namespace, keys[i]) in entries && IsKey(keys[i]) && Key(keys[i]) == order[i]
  {
    seq(|order|, i requires 0 <= i < |order| =>
      assert (namespace, order[i]) in rows;
      var id: Id :| id in entries && PlaceOf(id) == (namespace, order[i]); id.1)
  }

  lemma Selects<P(!new)>(rows: map<Place, P>, entries: map<Id, P>, namespace: Text, after: Option<seq<Text>>,
      low: Option<seq<int>>,
                         order: seq<seq<int>>, keys: seq<seq<Text>>)
    requires Stores(rows, entries) && after.Some? == low.Some? &&
        (after.Some? ==> IsKey(after.value) && low.value == Key(after.value))
    requires Ascending(Before, order) && |keys| == |order|
    requires forall b :: b in order <==> (namespace, b) in rows && (low.Some? ==> Before(low.value, b))
    requires forall i :: 0 <= i < |keys| ==>
        (namespace, keys[i]) in entries && IsKey(keys[i]) && Key(keys[i]) == order[i]
    ensures forall i, j :: 0 <= i < j < |keys| ==> KeyBefore(keys[i], keys[j])
    ensures forall k :: k in keys <==> (namespace, k) in entries && (after.Some? ==> KeyBefore(after.value, k))
    ensures forall i :: 0 <= i < |keys| ==>
        (namespace, order[i]) in rows && rows[(namespace, order[i])] == entries[(namespace, keys[i])]
  {
    forall i, j | 0 <= i < j < |keys| ensures KeyBefore(keys[i], keys[j]) { KeyOrder(keys[i], keys[j]); }
    forall i | 0 <= i < |keys|
      ensures (namespace, order[i]) in rows && rows[(namespace, order[i])] == entries[(namespace, keys[i])]
      ensures after.Some? ==> KeyBefore(after.value, keys[i])
    {
      assert PlaceOf((namespace, keys[i])) == (namespace, order[i]) && order[i] in order;
      if after.Some? { KeyOrder(after.value, keys[i]); }
    }
    forall k | (namespace, k) in entries && (after.Some? ==> KeyBefore(after.value, k)) ensures k in keys {
      if after.Some? { KeyOrder(after.value, k); }
      assert PlaceOf((namespace, k)) in rows && Key(k) in order;
      var i :| 0 <= i < |order| && order[i] == Key(k);
      KeyOrder(keys[i], k);
    }
  }
}
