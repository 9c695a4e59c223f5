/** The one-to-one join of accepted receipts and subject rows, as the disk-backed index performs it. */
module ReceiptJoin {
  /** One receipt row.  `version` is absent where the column is null. */
  datatype Receipt = Receipt(dataset: string, record: string, version: Version, identity: string, id: string,
      outcome: string)
  datatype Version = Absent | Present(digest: string)

  /** A subject row of a table: its identity columns and all its columns. */
  datatype Subject<I, R> = Subject(dataset: string, identity: I, row: R)

  /** The digests and the exact text of a subject, the policy of a dataset, and the checks of single rows that carry
      no state: declared shape, content digest, witnesses and classified fields. */
  datatype Rules<!I, !R> = Rules(
    record: (string, I) -> string,
    version: (string, R) -> string,
    spell: I -> string,
    receiptOnly: string -> bool,
    receiptPasses: Receipt -> bool,
    subjectPasses: Subject<I, R> -> bool)

  predicate Accepted(r: Receipt) { r.outcome == "accepted" }

  predicate Admissible<I, R>(rules: Rules<I, R>, r: Receipt) {
    && r.outcome in ["accepted", "refused", "error", "rejected", "observed"]
    && Accepted(r) == r.version.Present?
    && (Accepted(r) ==> !rules.receiptOnly(r.dataset) && r.record != "" && r.identity != "")
    && rules.receiptPasses(r)
  }

  /** A receipt accepts this very row: dataset, identity digest, version digest and identity text all agree. */
  predicate Matches<I, R>(rules: Rules<I, R>, r: Receipt, s: Subject<I, R>) {
    && Accepted(r)
    && r.dataset == s.dataset
    && r.record == rules.record(s.dataset, s.identity)
    && r.version == Present(rules.version(s.dataset, s.row))
    && r.identity == rules.spell(s.identity)
  }

  // ----- what a run accepts -----

  /** No two receipts share an id, and no two accepted ones a dataset and record. */
  predicate Clash(a: Receipt, b: Receipt) {
    a.id == b.id || (Accepted(a) && Accepted(b) && a.dataset == b.dataset && a.record == b.record)
  }

  ghost predicate Unambiguous(receipts: seq<Receipt>) {
    forall j, k :: 0 <= j < k < |receipts| ==> !Clash(receipts[j], receipts[k])
  }

  ghost predicate Standing<I, R>(rules: Rules<I, R>, receipts: seq<Receipt>) {
    (forall j :: 0 <= j < |receipts| ==> Admissible(rules, receipts[j])) && Unambiguous(receipts)
  }

  ghost predicate Has<I(!new), R(!new)>(rules: Rules<I, R>, receipts: seq<Receipt>, s: Subject<I, R>) {
    exists j :: 0 <= j < |receipts| && Matches(rules, receipts[j], s)
  }

  ghost predicate Taken<I(!new), R(!new)>(rules: Rules<I, R>, r: Receipt, subjects: seq<Subject<I, R>>) {
    exists i :: 0 <= i < |subjects| && Matches(rules, r, subjects[i])
  }

  ghost predicate Shared<I(!new), R(!new)>(rules: Rules<I, R>, receipts: seq<Receipt>, a: Subject<I, R>,
      b: Subject<I, R>) {
    exists j :: 0 <= j < |receipts| && Matches(rules, receipts[j], a) && Matches(rules, receipts[j], b)
  }

  /** Each subject passes, has a receipt, and has it alone. */
  ghost predicate Joined<I(!new), R(!new)>(rules: Rules<I, R>, receipts: seq<Receipt>, subjects: seq<Subject<I, R>>) {
    && (forall i :: 0 <= i < |subjects| ==> rules.subjectPasses(subjects[i]) && Has(rules, receipts, subjects[i]))
    && (forall i, k :: 0 <= i < k < |subjects| ==> !Shared(rules, receipts, subjects[i], subjects[k]))
  }

  ghost predicate Valid<I(!new), R(!new)>(rules: Rules<I, R>, receipts: seq<Receipt>, subjects: seq<Subject<I, R>>) {
    && Standing(rules, receipts)
    && Joined(rules, receipts, subjects)
    && (forall j :: 0 <= j < |receipts| && Accepted(receipts[j]) ==> Taken(rules, receipts[j], subjects))
  }

  // ----- what that means -----

  /** The receipt each subject selects. */
  ghost function Pairing<I(!new), R(!new)>(rules: Rules<I, R>, receipts: seq<Receipt>,
      subjects: seq<Subject<I, R>>): (p: seq<nat>)
    requires Joined(rules, receipts, subjects)
    ensures |p| == |subjects|
    ensures forall i :: 0 <= i < |subjects| ==> p[i] < |receipts| && Matches(rules, receipts[p[i]], subjects[i])
  {
    seq(|subjects|, i requires 0 <= i < |subjects| =>
      assert Has(rules, receipts, subjects[i]);
      var j: nat :| j < |receipts| && Matches(rules, receipts[j], subjects[i]); j)
  }

  /** Accepted receipts and subject rows correspond one to one. */
  lemma Bijection<I(!new), R(!new)>(rules: Rules<I, R>, receipts: seq<Receipt>, subjects: seq<Subject<I, R>>)
    requires Valid(rules, receipts, subjects)
    ensures var p := Pairing(rules, receipts, subjects);
      && (forall i, k :: 0 <= i < k < |subjects| ==> p[i] != p[k])
      && (forall j :: 0 <= j < |receipts| ==> (Accepted(receipts[j]) <==> j in p))
      && (forall i, j :: 0 <= i < |subjects| && 0 <= j < |receipts| ==>
          (Matches(rules, receipts[j], subjects[i]) <==> j == p[i]))
  {
    var p := Pairing(rules, receipts, subjects);
    forall i, k | 0 <= i < k < |subjects| ensures p[i] != p[k] {
      assert !Shared(rules, receipts, subjects[i], subjects[k]);
      assert Matches(rules, receipts[p[i]], subjects[i]) && Matches(rules, receipts[p[k]], subjects[k]);
    }
    forall i, j | 0 <= i < |subjects| && 0 <= j < |receipts|
      ensures Matches(rules, receipts[j], subjects[i]) <==> j == p[i]
    {
      OnlyMatch(rules, receipts, subjects[i], p[i]);
    }
    forall j | 0 <= j < |receipts| && Accepted(receipts[j]) ensures j in p {
      Selected(rules, receipts, subjects, p, j);
    }
    forall j | 0 <= j < |receipts| && j in p ensures Accepted(receipts[j]) {
      var i :| 0 <= i < |p| && p[i] == j;
      assert Matches(rules, receipts[p[i]], subjects[i]);
    }
  }

  lemma Selected<I(!new), R(!new)>(rules: Rules<I, R>, receipts: seq<Receipt>, subjects: seq<Subject<I, R>>,
      p: seq<nat>, j: nat)
    requires Unambiguous(receipts) && |p| == |subjects| && j < |receipts| && Taken(rules, receipts[j], subjects)
    requires forall i :: 0 <= i < |p| ==> p[i] < |receipts| && Matches(rules, receipts[p[i]], subjects[i])
    ensures j in p
  {
    var i :| 0 <= i < |subjects| && Matches(rules, receipts[j], subjects[i]);
    OnlyMatch(rules, receipts, subjects[i], j);
    assert p[i] == j;
  }

  /** So no two subject rows of a dataset share an identity, whatever the digests do. */
  lemma IdentitiesDiffer<I(!new), R(!new)>(rules: Rules<I, R>, receipts: seq<Receipt>, subjects: seq<Subject<I, R>>,
      i: nat, k: nat)
    requires Valid(rules, receipts, subjects) && i < k < |subjects|
    requires subjects[i].dataset == subjects[k].dataset
    ensures subjects[i].identity != subjects[k].identity
  {
    if subjects[i].identity == subjects[k].identity {
      Bijection(rules, receipts, subjects);
      var p := Pairing(rules, receipts, subjects);
      assert p[i] != p[k];
      assert Clash(receipts[p[i]], receipts[p[k]]) && Clash(receipts[p[k]], receipts[p[i]]);
      assert false;
    }
  }

  /** Where the version digest is injective, an accepted receipt fixes the whole row it accepts. */
  lemma ReceiptFixesRow<I(!new), R(!new)>(rules: Rules<I, R>, r: Receipt, a: Subject<I, R>, b: Subject<I, R>)
    requires forall d, x, y :: rules.version(d, x) == rules.version(d, y) ==> x == y
    requires Matches(rules, r, a) && Matches(rules, r, b)
    ensures a.dataset == b.dataset && a.row == b.row
  {
    assert rules.version(a.dataset, a.row) == rules.version(b.dataset, b.row);
  }

  // ----- the index -----

  datatype Entry = Entry(receipt: Receipt, used: bool)

  /** The temporary table: rows are inserted, and marked as they are selected. */
  class Joins<I(!new), R(!new)> {
    const rules: Rules<I, R>
    var entries: seq<Entry>

    constructor (rules: Rules<I, R>)
      ensures this.rules == rules && entries == []
    {
      this.rules := rules;
      entries := [];
    }

    ghost function Receipts(): (r: seq<Receipt>)
      reads this
      ensures |r| == |entries| && forall j :: 0 <= j < |r| ==> r[j] == entries[j].receipt
    {
      seq(|entries|, j requires 0 <= j < |entries| reads this => entries[j].receipt)
    }

    /** The unique indexes refuse a clash and leave the table as it was. */
    method Insert(r: Receipt) returns (ok: bool)
      modifies this
      ensures ok <==> forall j :: 0 <= j < |old(entries)| ==> !Clash(old(entries)[j].receipt, r)
      ensures entries == if ok then old(entries) + [Entry(r, false)] else old(entries)
    {
      var j := 0;
      while j < |entries|
        invariant 0 <= j <= |entries| && forall k :: 0 <= k < j ==> !Clash(entries[k].receipt, r)
      {
        if Clash(entries[j].receipt, r) { return false; }
        j := j + 1;
      }
      entries := entries + [Entry(r, false)];
      ok := true;
    }

    method AddReceipts(receipts: seq<Receipt>) returns (ok: bool)
      requires entries == []
      modifies this
      ensures ok <==> Standing(rules, receipts)
      ensures ok ==> Receipts() == receipts && forall j :: 0 <= j < |entries| ==> !entries[j].used
    {
      var n := 0;
      assert receipts[..0] == [];
      while n < |receipts|
        invariant 0 <= n <= |receipts| && Inserted(receipts[..n])
      {
        assert receipts[..n + 1] == receipts[..n] + [receipts[n]];
        ok := AddReceipt(receipts[n], receipts[..n]);
        if !ok {
          PrefixStands(rules, receipts, n + 1);
          return false;
        }
        n := n + 1;
      }
      assert receipts[..n] == receipts;
      ok := true;
    }

    /** These receipts are in the table, none of them used. */
    ghost predicate Inserted(receipts: seq<Receipt>)
      reads this
    {
      && |entries| == |receipts| && (forall j :: 0 <= j < |receipts| ==> entries[j] == Entry(receipts[j], false))
      && Standing(rules, receipts)
    }

    method AddReceipt(r: Receipt, ghost before: seq<Receipt>) returns (ok: bool)
      requires Inserted(before)
      modifies this
      ensures ok <==> Standing(rules, before + [r])
      ensures ok ==> Inserted(before + [r])
    {
      OneMoreStands(rules, before, r);
      if !Admissible(rules, r) { return false; }
      ok := Insert(r);
    }

    /** Selects the accepted receipt of one subject and marks it by its id; refused when there is none or it is used. */
    method Select(s: Subject<I, R>) returns (ok: bool)
      requires Unambiguous(Receipts())
      modifies this
      ensures Receipts() == old(Receipts())
      ensures ok <==>
          exists j :: 0 <= j < |old(entries)| && Matches(rules, old(entries)[j].receipt, s) && !old(entries)[j].used
      ensures ok ==> forall j :: 0 <= j < |entries| ==>
        entries[j].used == (old(entries)[j].used || Matches(rules, old(entries)[j].receipt, s))
      ensures !ok ==> entries == old(entries)
    {
      var j := 0;
      while j < |entries| && !Matches(rules, entries[j].receipt, s)
        invariant 0 <= j <= |entries|
        invariant forall k :: 0 <= k < j ==> !Matches(rules, entries[k].receipt, s)
      {
        j := j + 1;
      }
      if j == |entries| { return false; }
      OnlyMatch(rules, Receipts(), s, j);
      assert forall k :: 0 <= k < |entries| ==> Receipts()[k] == entries[k].receipt;
      if entries[j].used { return false; }
      var id, before := entries[j].receipt.id, entries;
      entries := seq(|before|, k requires 0 <= k < |before| =>
        if before[k].receipt.id == id then before[k].(used := true) else before[k]);
      ok := true;
    }

    ghost predicate Progress(subjects: seq<Subject<I, R>>, n: nat)
      requires n <= |subjects|
      reads this
    {
      && Joined(rules, Receipts(), subjects[..n])
      && forall j :: 0 <= j < |entries| ==> (entries[j].used <==> Taken(rules, entries[j].receipt, subjects[..n]))
    }

    method SelectNext(s: Subject<I, R>, ghost subjects: seq<Subject<I, R>>, ghost n: nat) returns (ok: bool)
      requires n < |subjects| && s == subjects[n] && Unambiguous(Receipts()) && Progress(subjects, n)
      modifies this
      ensures Receipts() == old(Receipts())
      ensures ok ==> Progress(subjects, n + 1)
      ensures !ok ==> !Joined(rules, Receipts(), subjects)
    {
      ghost var before, receipts := entries, Receipts();
      if !rules.subjectPasses(s) { return false; }
      ok := Select(s);
      if !ok {
        NotJoined(rules, receipts, subjects, n, before);
      } else {
        NewlyJoined(rules, receipts, subjects, n, before);
        TakenGrows(rules, subjects, n);
      }
    }

    /** Every subject row in turn. */
    method SelectAll(subjects: seq<Subject<I, R>>) returns (ok: bool)
      requires Unambiguous(Receipts()) && forall j :: 0 <= j < |entries| ==> !entries[j].used
      modifies this
      ensures Receipts() == old(Receipts())
      ensures ok <==> Joined(rules, old(Receipts()), subjects)
      ensures ok ==> forall j :: 0 <= j < |entries| ==>
          (entries[j].used <==> Taken(rules, entries[j].receipt, subjects))
    {
      ghost var receipts := Receipts();
      var n := 0;
      while n < |subjects|
        invariant 0 <= n <= |subjects| && Receipts() == receipts
        invariant Progress(subjects, n)
      {
        ok := SelectNext(subjects[n], subjects, n);
        if !ok { return false; }
        n := n + 1;
      }
      assert subjects[..n] == subjects;
      ok := true;
    }

    /** The whole verification: it accepts exactly the valid inputs. */
    method VerifyReceipts(receipts: seq<Receipt>, subjects: seq<Subject<I, R>>) returns (ok: bool)
      requires entries == []
      modifies this
      ensures ok <==> Valid(rules, receipts, subjects)
    {
      ok := AddReceipts(receipts);
      if !ok { return; }
      ok := SelectAll(subjects);
      if !ok { return; }
      assert forall j :: 0 <= j < |entries| ==> receipts[j] == entries[j].receipt;
      var j := 0;
      while j < |entries|
        invariant 0 <= j <= |entries|
        invariant forall k :: 0 <= k < j && Accepted(receipts[k]) ==> Taken(rules, receipts[k], subjects)
      {
        if Accepted(entries[j].receipt) && !entries[j].used { return false; }
        j := j + 1;
      }
    }
  }

  lemma PrefixStands<I, R>(rules: Rules<I, R>, receipts: seq<Receipt>, n: nat)
    requires n <= |receipts|
    ensures Standing(rules, receipts) ==> Standing(rules, receipts[..n])
  {
  }

  lemma OneMoreStands<I, R>(rules: Rules<I, R>, before: seq<Receipt>, r: Receipt)
    requires Standing(rules, before)
    ensures Standing(rules, before + [r]) <==>
        Admissible(rules, r) && forall j :: 0 <= j < |before| ==> !Clash(before[j], r)
  {
    var more := before + [r];
    assert more[|before|] == r && forall j :: 0 <= j < |before| ==> more[j] == before[j];
  }

  lemma OnlyMatch<I(!new), R(!new)>(rules: Rules<I, R>, receipts: seq<Receipt>, s: Subject<I, R>, j: nat)
    requires Unambiguous(receipts) && j < |receipts| && Matches(rules, receipts[j], s)
    ensures forall k :: 0 <= k < |receipts| ==>
        ((Matches(rules, receipts[k], s) <==> k == j) && (receipts[k].id == receipts[j].id <==> k == j))
  {
    forall k | 0 <= k < |receipts| && k != j
        ensures !Matches(rules, receipts[k], s) && receipts[k].id != receipts[j].id {
      assert !Clash(receipts[if k < j then k else j], receipts[if k < j then j else k]);
    }
  }

  lemma NotJoined<I(!new), R(!new)>(rules: Rules<I, R>, receipts: seq<Receipt>, subjects: seq<Subject<I, R>>, n: nat,
      before: seq<Entry>)
    requires n < |subjects| && |before| == |receipts| && forall j :: 0 <= j < |before| ==>
        receipts[j] == before[j].receipt
    requires forall j :: 0 <= j < |before| ==> (before[j].used <==> Taken(rules, before[j].receipt, subjects[..n]))
    requires !exists j :: 0 <= j < |before| && Matches(rules, before[j].receipt, subjects[n]) && !before[j].used
    ensures !Joined(rules, receipts, subjects)
  {
    if Joined(rules, receipts, subjects) {
      assert Has(rules, receipts, subjects[n]);
      var j :| 0 <= j < |receipts| && Matches(rules, receipts[j], subjects[n]);
      assert before[j].used;
      var i :| 0 <= i < n && Matches(rules, receipts[j], subjects[..n][i]);
      assert Shared(rules, receipts, subjects[i], subjects[n]);
    }
  }

  lemma NewlyJoined<I(!new), R(!new)>(rules: Rules<I, R>, receipts: seq<Receipt>, subjects: seq<Subject<I, R>>, n: nat,
      before: seq<Entry>)
    requires n < |subjects| && |before| == |receipts| && forall j :: 0 <= j < |before| ==>
        receipts[j] == before[j].receipt
    requires Unambiguous(receipts) && rules.subjectPasses(subjects[n])
    requires forall j :: 0 <= j < |before| ==> (before[j].used <==> Taken(rules, before[j].receipt, subjects[..n]))
    requires exists j :: 0 <= j < |before| && Matches(rules, before[j].receipt, subjects[n]) && !before[j].used
    requires Joined(rules, receipts, subjects[..n])
    ensures Joined(rules, receipts, subjects[..n + 1])
  {
    var j :| 0 <= j < |before| && Matches(rules, before[j].receipt, subjects[n]) && !before[j].used;
    OnlyMatch(rules, receipts, subjects[n], j);
    NotShared(rules, receipts, subjects, n, before, j);
    assert Has(rules, receipts, subjects[n]);
    var front, more := subjects[..n], subjects[..n + 1];
    assert more[n] == subjects[n] && forall i :: 0 <= i < n ==> more[i] == front[i];
  }

  lemma NotShared<I(!new), R(!new)>(rules: Rules<I, R>, receipts: seq<Receipt>, subjects: seq<Subject<I, R>>, n: nat,
      before: seq<Entry>, j: nat)
    requires n < |subjects| && |before| == |receipts| && forall k :: 0 <= k < |before| ==>
        receipts[k] == before[k].receipt
    requires forall k :: 0 <= k < |before| ==> (before[k].used <==> Taken(rules, before[k].receipt, subjects[..n]))
    requires j < |before| && !before[j].used && forall k :: 0 <= k < |receipts| ==>
        (Matches(rules, receipts[k], subjects[n]) <==> k == j)
    ensures forall i :: 0 <= i < n ==> !Shared(rules, receipts, subjects[..n][i], subjects[n])
  {
    forall i | 0 <= i < n ensures !Shared(rules, receipts, subjects[..n][i], subjects[n]) {
      assert !Matches(rules, receipts[j], subjects[..n][i]);
    }
  }

  lemma TakenGrows<I(!new), R(!new)>(rules: Rules<I, R>, subjects: seq<Subject<I, R>>, n: nat)
    requires n < |subjects|
    ensures forall r :: Taken(rules, r, subjects[..n + 1]) <==>
        Taken(rules, r, subjects[..n]) || Matches(rules, r, subjects[n])
  {
    forall r ensures Taken(rules, r, subjects[..n + 1]) <==>
        Taken(rules, r, subjects[..n]) || Matches(rules, r, subjects[n]) {
      if Taken(rules, r, subjects[..n]) {
        var i :| 0 <= i < n && Matches(rules, r, subjects[..n][i]);
        assert Matches(rules, r, subjects[..n + 1][i]);
      }
      if Matches(rules, r, subjects[n]) { assert Matches(rules, r, subjects[..n + 1][n]); }
      if Taken(rules, r, subjects[..n + 1]) && !Matches(rules, r, subjects[n]) {
        var i :| 0 <= i < n + 1 && Matches(rules, r, subjects[..n + 1][i]);
        assert Matches(rules, r, subjects[..n][i]);
      }
    }
  }
}
