/** The structural difference of two JSON values, with RFC 6901 pointers. */
module JsonChanges {
  import opened Prelude
  import opened Ordering
  import opened Replacing

  datatype Json =
    | Null
    | Bool(b: bool)
    | Number(i: int)
    | String(s: string)
    | Array(items: seq<Json>)
    | Object(members: map<string, Json>)

  /** A record as it is written: a missing side is written as null, and the flags tell it from a null that is there. */
  datatype Change =
    | Presence(path: string, older: Json, newer: Json, olderPresent: bool, newerPresent: bool)
    | Differs(path: string, older: Json, newer: Json)

  // ----- pointers -----

  function EscapeKey(key: string): string { Replace(Replace(key, '~', "~0"), '/', "~1") }

  function Pointer(tokens: seq<string>): string {
    if tokens == [] then "" else "/" + (EscapeKey(tokens[0]) + Pointer(tokens[1..]))
  }

  /** Replacing a pair of characters, left to right. */
  function ReplacePair(s: string, second: char, into: char): string
    decreases |s|
  {
    if s == "" then ""
    else if |s| >= 2 && s[0] == '~' && s[1] == second then [into] + ReplacePair(s[2..], second, into)
    else [s[0]] + ReplacePair(s[1..], second, into)
  }

  /** Section 4 of RFC 6901: first `~1` becomes a slash, then `~0` a tilde. */
  function UnescapeToken(t: string): string { ReplacePair(ReplacePair(t, '1', '/'), '0', '~') }

  function TokenLength(t: string): (n: nat)
    ensures n <= |t| && (forall i :: 0 <= i < n ==> t[i] != '/') && (n < |t| ==> t[n] == '/')
  {
    if t == "" || t[0] == '/' then 0 else 1 + TokenLength(t[1..])
  }

  /** The reference tokens of a pointer; a nonempty pointer starts with a slash. */
  function Tokens(pointer: string): Option<seq<string>>
    decreases |pointer|
  {
    if pointer == "" then Some([])
    else if pointer[0] != '/' then None
    else
      var n := 1 + TokenLength(pointer[1..]);
      match Tokens(pointer[n..])
      case None => None
      case Some(rest) => Some([UnescapeToken(pointer[1..n])] + rest)
  }

  // ----- the difference -----

  function Changes(older: Json, newer: Json, path: string): seq<Change>
    decreases older, 1
  {
    if older == newer then []
    else if older.Object? && newer.Object? then
      MemberChanges(older, newer, path, Sorted(older.members.Keys + newer.members.Keys))
    else [Differs(path, older, newer)]
  }

  function MemberChanges(older: Json, newer: Json, path: string, keys: seq<string>): seq<Change>
    requires older.Object? && newer.Object?
    decreases older, 0, |keys|
  {
    if keys == [] then []
    else
      var key := keys[0];
      var child := path + "/" + EscapeKey(key);
      (if key in older.members && key in newer.members then Changes(older.members[key], newer.members[key], child)
       else [Missing(child, Get(older.members, key), Get(newer.members, key))])
      + MemberChanges(older, newer, path, keys[1..])
  }

  function Missing(path: string, older: Option<Json>, newer: Option<Json>): Change {
    Presence(path, Written(older), Written(newer), older.Some?, newer.Some?)
  }

  function Written(side: Option<Json>): Json { if side.Some? then side.value else Null }

  function Older(c: Change): Option<Json> { if c.Presence? && !c.olderPresent then None else Some(c.older) }

  function Newer(c: Change): Option<Json> { if c.Presence? && !c.newerPresent then None else Some(c.newer) }

  // ----- what a reader does with it -----

  function Put(m: map<string, Json>, k: string, v: Option<Json>): map<string, Json> {
    if v.Some? then m[k := v.value] else m - {k}
  }

  /** The value at the tokens. */
  function At(doc: Option<Json>, tokens: seq<string>): Option<Json>
    decreases |tokens|
  {
    if tokens == [] then doc
    else if doc.Some? && doc.value.Object? then At(Get(doc.value.members, tokens[0]), tokens[1..])
    else None
  }

  /** Puts a value at the tokens, or removes it. */
  function PutAt(doc: Option<Json>, tokens: seq<string>, value: Option<Json>): Option<Json>
    decreases |tokens|
  {
    if tokens == [] then value
    else if doc.Some? && doc.value.Object? then
      var m := doc.value.members;
      Some(Object(Put(m, tokens[0], PutAt(Get(m, tokens[0]), tokens[1..], value))))
    else doc
  }

  /** Applies the changes in turn, reading only their pointers and their newer side. */
  function Apply(doc: Option<Json>, changes: seq<Change>): Option<Json>
    decreases |changes|
  {
    if changes == [] then doc
    else match Tokens(changes[0].path)
         case None => None
         case Some(tokens) => Apply(PutAt(doc, tokens, Newer(changes[0])), changes[1..])
  }

  // ----- the same difference with tokens instead of pointers -----

  datatype Edit = Edit(tokens: seq<string>, older: Option<Json>, newer: Option<Json>)

  function Diff(older: Json, newer: Json): seq<Edit>
    decreases older, 1
  {
    if older == newer then []
    else if older.Object? && newer.Object? then DiffKeys(older, newer, Sorted(older.members.Keys + newer.members.Keys))
    else [Edit([], Some(older), Some(newer))]
  }

  function DiffKeys(older: Json, newer: Json, keys: seq<string>): seq<Edit>
    requires older.Object? && newer.Object?
    decreases older, 0, |keys|
  {
    if keys == [] then []
    else
      Under(keys[0], KeyEdits(older, newer, keys[0])) + DiffKeys(older, newer, keys[1..])
  }

  /** The difference of one member, which a side may lack. */
  function KeyEdits(older: Json, newer: Json, key: string): seq<Edit>
    requires older.Object? && newer.Object?
    decreases older, 0, 0
  {
    if key in older.members && key in newer.members then Diff(older.members[key], newer.members[key])
    else [Edit([], Get(older.members, key), Get(newer.members, key))]
  }

  function Under(key: string, edits: seq<Edit>): (r: seq<Edit>)
    ensures |r| == |edits| && forall i :: 0 <= i < |r| ==>
        r[i] == Edit([key] + edits[i].tokens, edits[i].older, edits[i].newer)
  {
    if edits == [] then [] else [Edit([key] + edits[0].tokens, edits[0].older, edits[0].newer)] + Under(key, edits[1..])
  }

  function Record(path: string, e: Edit): Change {
    if e.older.Some? && e.newer.Some? then Differs(path, e.older.value, e.newer.value)
        else Missing(path, e.older, e.newer)
  }

  function Render(prefix: seq<string>, edits: seq<Edit>): (r: seq<Change>)
    ensures |r| == |edits| && forall i :: 0 <= i < |r| ==> r[i] == Record(Pointer(prefix + edits[i].tokens), edits[i])
  {
    if edits == [] then []
    else [Record(Pointer(prefix + edits[0].tokens), edits[0])] + Render(prefix, edits[1..])
  }

  function ApplyEdits(doc: Option<Json>, edits: seq<Edit>): Option<Json>
    decreases |edits|
  {
    if edits == [] then doc else ApplyEdits(PutAt(doc, edits[0].tokens, edits[0].newer), edits[1..])
  }

  // ----- pointers name their tokens -----

  lemma {:induction false} SlashesBack(s: string)
    ensures ReplacePair(Replace(Replace(s, '~', "~0"), '/', "~1"), '1', '/') == Replace(s, '~', "~0")
  {
    if s != "" {
      var rest := Replace(s[1..], '~', "~0");
      SlashesBack(s[1..]);
      var first := if s[0] == '~' then "~0" else [s[0]];
      ReplaceAppends(first, rest, '/', "~1");
      var tail := Replace(rest, '/', "~1");
      if s[0] == '~' {
        assert Replace("~0", '/', "~1") == "~0" by { ReplaceAppends("~", "0", '/', "~1"); }
        var t := "~0" + tail;
        assert t[1..] == "0" + tail && t[1..][1..] == tail;
      } else if s[0] == '/' {
        var t := "~1" + tail;
        assert t[2..] == tail;
      } else {
        var t := [s[0]] + tail;
        assert t[1..] == tail;
      }
    }
  }

  lemma {:induction false} TildesBack(s: string)
    ensures ReplacePair(Replace(s, '~', "~0"), '0', '~') == s
  {
    if s != "" {
      TildesBack(s[1..]);
      var tail := Replace(s[1..], '~', "~0");
      var t := (if s[0] == '~' then "~0" else [s[0]]) + tail;
      assert t[if s[0] == '~' then 2 else 1..] == tail;
    }
  }

  lemma KeyBack(key: string)
    ensures UnescapeToken(EscapeKey(key)) == key
  {
    SlashesBack(key);
    TildesBack(key);
  }

  lemma {:induction false} NoSlash(s: string)
    ensures forall i :: 0 <= i < |Replace(s, '/', "~1")| ==> Replace(s, '/', "~1")[i] != '/'
  {
    if s != "" { NoSlash(s[1..]); }
  }

  lemma {:induction false} TokenLengthIs(token: string, rest: string)
    requires (forall i :: 0 <= i < |token| ==> token[i] != '/') && (rest == "" || rest[0] == '/')
    ensures TokenLength(token + rest) == |token|
  {
    if token == "" {
      assert token + rest == rest;
    } else {
      assert (token + rest)[1..] == token[1..] + rest;
      TokenLengthIs(token[1..], rest);
    }
  }

  function Prepend(tokens: seq<string>, rest: Option<seq<string>>): Option<seq<string>> {
    if rest.Some? then Some(tokens + rest.value) else None
  }

  lemma ReadsToken(escaped: string, rest: string)
    requires (forall i :: 0 <= i < |escaped| ==> escaped[i] != '/') && (rest == "" || rest[0] == '/')
    ensures Tokens("/" + (escaped + rest)) == Prepend([UnescapeToken(escaped)], Tokens(rest))
  {
    TokenLengthIs(escaped, rest);
    CutsToken("/" + (escaped + rest), escaped, rest);
  }

  lemma CutsToken(t: string, escaped: string, rest: string)
    requires t == "/" + (escaped + rest)
    ensures t[1..] == escaped + rest && t[1..1 + |escaped|] == escaped && t[1 + |escaped|..] == rest
  {
  }

  /** Reading a pointer and what continues it. */
  lemma {:induction false} PointerReads(tokens: seq<string>, rest: string)
    requires rest == "" || rest[0] == '/'
    ensures Tokens(Pointer(tokens) + rest) == Prepend(tokens, Tokens(rest))
  {
    if tokens == [] {
      assert Pointer(tokens) + rest == rest;
      if Tokens(rest).Some? { assert tokens + Tokens(rest).value == Tokens(rest).value; }
    } else {
      var escaped, more := EscapeKey(tokens[0]), Pointer(tokens[1..]) + rest;
      PointerReads(tokens[1..], rest);
      NoSlash(Replace(tokens[0], '~', "~0"));
      ReadsToken(escaped, more);
      KeyBack(tokens[0]);
      Associates("/", escaped + Pointer(tokens[1..]), rest);
      Associates(escaped, Pointer(tokens[1..]), rest);
      if Tokens(rest).Some? { Associates([tokens[0]], tokens[1..], Tokens(rest).value); }
      assert [tokens[0]] + tokens[1..] == tokens;
    }
  }

  lemma PointerNames(tokens: seq<string>)
    ensures Tokens(Pointer(tokens)) == Some(tokens)
  {
    PointerReads(tokens, "");
    assert Pointer(tokens) + "" == Pointer(tokens) && tokens + [] == tokens;
  }

  lemma {:induction false} PointerExtends(prefix: seq<string>, key: string)
    ensures Pointer(prefix + [key]) == Pointer(prefix) + "/" + EscapeKey(key)
  {
    if prefix == [] {
      assert [key][1..] == [] && prefix + [key] == [key];
    } else {
      assert (prefix + [key])[1..] == prefix[1..] + [key];
      PointerExtends(prefix[1..], key);
    }
  }

  // ----- the records are the edits, with their pointers written out -----

  lemma {:induction false} Renders(older: Json, newer: Json, prefix: seq<string>)
    ensures Changes(older, newer, Pointer(prefix)) == Render(prefix, Diff(older, newer))
    decreases older, 1
  {
    if older == newer {
    } else if older.Object? && newer.Object? {
      RendersKeys(older, newer, prefix, Sorted(older.members.Keys + newer.members.Keys));
    } else {
      assert prefix + [] == prefix;
    }
  }

  lemma {:induction false} RendersKeys(older: Json, newer: Json, prefix: seq<string>, keys: seq<string>)
    requires older.Object? && newer.Object? && forall k :: k in keys ==> k in older.members || k in newer.members
    ensures MemberChanges(older, newer, Pointer(prefix), keys) == Render(prefix, DiffKeys(older, newer, keys))
    decreases older, 0, |keys|
  {
    if keys != [] {
      var key, child := keys[0], prefix + [keys[0]];
      RendersKeys(older, newer, prefix, keys[1..]);
      PointerExtends(prefix, key);
      var edits := KeyEdits(older, newer, key);
      if key in older.members && key in newer.members {
        Renders(older.members[key], newer.members[key], child);
      } else {
        assert child + [] == child;
      }
      RenderUnder(prefix, key, edits);
      RenderAppends(prefix, Under(key, edits), DiffKeys(older, newer, keys[1..]));
    }
  }

  lemma RenderUnder(prefix: seq<string>, key: string, edits: seq<Edit>)
    ensures Render(prefix, Under(key, edits)) == Render(prefix + [key], edits)
  {
    forall i | 0 <= i < |edits| ensures Render(prefix, Under(key, edits))[i] == Render(prefix + [key], edits)[i] {
      assert prefix + ([key] + edits[i].tokens) == prefix + [key] + edits[i].tokens;
    }
  }

  lemma RenderAppends(prefix: seq<string>, a: seq<Edit>, b: seq<Edit>)
    ensures Render(prefix, a + b) == Render(prefix, a) + Render(prefix, b)
  {
  }

  lemma {:induction false} AppliesEdits(doc: Option<Json>, edits: seq<Edit>)
    ensures Apply(doc, Render([], edits)) == ApplyEdits(doc, edits)
    decreases |edits|
  {
    if edits != [] {
      assert [] + edits[0].tokens == edits[0].tokens;
      PointerNames(edits[0].tokens);
      AppliesEdits(PutAt(doc, edits[0].tokens, edits[0].newer), edits[1..]);
      assert Render([], edits)[1..] == Render([], edits[1..]);
    }
  }

  // ----- applying the edits rebuilds the newer value -----

  lemma {:induction false} ApplyAppends(doc: Option<Json>, a: seq<Edit>, b: seq<Edit>)
    ensures ApplyEdits(doc, a + b) == ApplyEdits(ApplyEdits(doc, a), b)
    decreases |a|
  {
    if a == [] {
      assert a + b == b;
    } else {
      assert (a + b)[1..] == a[1..] + b;
      ApplyAppends(PutAt(doc, a[0].tokens, a[0].newer), a[1..], b);
    }
  }

  /** Edits under one key act on that member alone. */
  lemma {:induction false} AppliesUnder(m: map<string, Json>, key: string, edits: seq<Edit>)
    ensures ApplyEdits(Some(Object(m)), Under(key, edits)) == Some(Object(Put(m, key, ApplyEdits(Get(m, key), edits))))
    decreases |edits|
  {
    if edits == [] {
      assert Put(m, key, Get(m, key)) == m;
    } else {
      var value := PutAt(Get(m, key), edits[0].tokens, edits[0].newer);
      var next := Put(m, key, value);
      assert ([key] + edits[0].tokens)[1..] == edits[0].tokens;
      assert Under(key, edits)[1..] == Under(key, edits[1..]);
      AppliesUnder(next, key, edits[1..]);
      var last := ApplyEdits(value, edits[1..]);
      assert Get(next, key) == value && Put(next, key, last) == Put(m, key, last);
    }
  }

  lemma {:induction false} Rebuilds(older: Json, newer: Json)
    ensures ApplyEdits(Some(older), Diff(older, newer)) == Some(newer)
    decreases older, 1
  {
    if older == newer {
    } else if older.Object? && newer.Object? {
      var keys := Sorted(older.members.Keys + newer.members.Keys);
      Distinct(keys);
      RebuildsKeys(older, newer, keys, older.members);
      var m := Merge(older.members, newer.members, keys);
      forall k ensures Get(m, k) == Get(newer.members, k) {
        MergeGets(older.members, newer.members, keys, k);
        if k !in keys { assert k !in older.members && k !in newer.members; }
      }
      SameMembers(m, newer.members);
    }
  }

  lemma Distinct(keys: seq<string>)
    requires Ascending(StringBefore, keys)
    ensures forall i, j :: 0 <= i < j < |keys| ==> keys[i] != keys[j]
  {
    StringsStrictTotal();
  }

  lemma SameMembers(a: map<string, Json>, b: map<string, Json>)
    requires forall k :: Get(a, k) == Get(b, k)
    ensures a == b
  {
    assert forall k :: (k in a <==> Get(a, k).Some?) && (k in b <==> Get(b, k).Some?);
    forall k | k in a ensures a[k] == b[k] { assert Get(a, k) == Some(a[k]) && Get(b, k) == Some(b[k]); }
  }

  /** The members already treated have their newer value. */
  function Merge(m: map<string, Json>, newer: map<string, Json>, keys: seq<string>): map<string, Json>
    decreases |keys|
  {
    if keys == [] then m else Merge(Put(m, keys[0], Get(newer, keys[0])), newer, keys[1..])
  }

  lemma {:induction false} MergeGets(m: map<string, Json>, newer: map<string, Json>, keys: seq<string>, k: string)
    ensures Get(Merge(m, newer, keys), k) == Get(if k in keys then newer else m, k)
    decreases |keys|
  {
    if keys != [] { MergeGets(Put(m, keys[0], Get(newer, keys[0])), newer, keys[1..], k); }
  }

  lemma {:induction false} RebuildsKeys(older: Json, newer: Json, keys: seq<string>, m: map<string, Json>)
    requires older.Object? && newer.Object? && forall i, j :: 0 <= i < j < |keys| ==> keys[i] != keys[j]
    requires forall k :: k in keys ==> Get(m, k) == Get(older.members, k)
    ensures ApplyEdits(Some(Object(m)), DiffKeys(older, newer, keys)) == Some(Object(Merge(m, newer.members, keys)))
    decreases older, 0, |keys|
  {
    if keys != [] {
      var key, rest := keys[0], keys[1..];
      if key in older.members && key in newer.members { Rebuilds(older.members[key], newer.members[key]); }
      RebuildsKey(older, newer, keys, m);
      PutOthers(m, key, Get(newer.members, key));
      RebuildsKeys(older, newer, rest, Put(m, key, Get(newer.members, key)));
    }
  }

  lemma PutOthers(m: map<string, Json>, key: string, v: Option<Json>)
    ensures forall k :: k != key ==> Get(Put(m, key, v), k) == Get(m, k)
  {
  }

  lemma RebuildsKey(older: Json, newer: Json, keys: seq<string>, m: map<string, Json>)
    requires older.Object? && newer.Object? && keys != [] && Get(m, keys[0]) == Get(older.members, keys[0])
    requires keys[0] in older.members && keys[0] in newer.members ==>
      ApplyEdits(Some(older.members[keys[0]]), Diff(older.members[keys[0]], newer.members[keys[0]]))
          == Some(newer.members[keys[0]])
    ensures ApplyEdits(Some(Object(m)), DiffKeys(older, newer, keys)) ==
      ApplyEdits(Some(Object(Put(m, keys[0], Get(newer.members, keys[0])))), DiffKeys(older, newer, keys[1..]))
  {
    var key := keys[0];
    var edits := KeyEdits(older, newer, key);
    AppliesUnder(m, key, edits);
    ApplyAppends(Some(Object(m)), Under(key, edits), DiffKeys(older, newer, keys[1..]));
  }

  /** Applying the changes of two values to the older one, at their pointers, gives the newer one. */
  lemma ChangesRebuild(older: Json, newer: Json)
    ensures Apply(Some(older), Changes(older, newer, "")) == Some(newer)
  {
    assert Pointer([]) == "";
    Renders(older, newer, []);
    AppliesEdits(Some(older), Diff(older, newer));
    Rebuilds(older, newer);
  }

  /** Nothing is reported exactly when the values are equal. */
  lemma EmptyIffEqual(older: Json, newer: Json)
    ensures Changes(older, newer, "") == [] <==> older == newer
  {
    ChangesRebuild(older, newer);
  }

  // ----- each record is a difference, and no record is inside another -----

  /** The records of both sides tell what is there: a member that is missing, and a member that is null. */
  ghost predicate Reports(older: Option<Json>, newer: Option<Json>, e: Edit) {
    At(older, e.tokens) == e.older && At(newer, e.tokens) == e.newer && e.older != e.newer
  }

  lemma {:induction false} DiffReports(older: Json, newer: Json)
    ensures forall i :: 0 <= i < |Diff(older, newer)| ==> Reports(Some(older), Some(newer), Diff(older, newer)[i])
    decreases older, 1
  {
    if older != newer && older.Object? && newer.Object? {
      KeysReport(older, newer, Sorted(older.members.Keys + newer.members.Keys));
    }
  }

  lemma {:induction false} KeysReport(older: Json, newer: Json, keys: seq<string>)
    requires older.Object? && newer.Object? && forall k :: k in keys ==> k in older.members || k in newer.members
    ensures forall i :: 0 <= i < |DiffKeys(older, newer, keys)| ==>
        Reports(Some(older), Some(newer), DiffKeys(older, newer, keys)[i])
    decreases older, 0, |keys|
  {
    if keys != [] {
      var key := keys[0];
      KeysReport(older, newer, keys[1..]);
      var edits := KeyEdits(older, newer, key);
      KeyReports(older, newer, key);
      forall i | 0 <= i < |edits| ensures Reports(Some(older), Some(newer), Under(key, edits)[i]) {
        assert Reports(Get(older.members, key), Get(newer.members, key), edits[i]);
        assert ([key] + edits[i].tokens)[1..] == edits[i].tokens;
      }
    }
  }

  lemma {:induction false} KeyReports(older: Json, newer: Json, key: string)
    requires older.Object? && newer.Object? && (key in older.members || key in newer.members)
    ensures forall i :: 0 <= i < |KeyEdits(older, newer, key)| ==>
        Reports(Get(older.members, key), Get(newer.members, key), KeyEdits(older, newer, key)[i])
    decreases older, 0, 0
  {
    if key in older.members && key in newer.members {
      var edits := Diff(older.members[key], newer.members[key]);
      DiffReports(older.members[key], newer.members[key]);
      assert KeyEdits(older, newer, key) == edits;
      forall i | 0 <= i < |edits|
          ensures Reports(Get(older.members, key), Get(newer.members, key), edits[i]) {
        assert Reports(Some(older.members[key]), Some(newer.members[key]), edits[i]);
      }
    }
  }

  predicate PrefixFree(edits: seq<Edit>) {
    forall i, j :: 0 <= i < |edits| && 0 <= j < |edits| && i != j ==> !(edits[i].tokens <= edits[j].tokens)
  }

  lemma {:induction false} DiffPrefixFree(older: Json, newer: Json)
    ensures PrefixFree(Diff(older, newer))
    decreases older, 1
  {
    if older != newer && older.Object? && newer.Object? {
      var keys := Sorted(older.members.Keys + newer.members.Keys);
      Distinct(keys);
      KeysPrefixFree(older, newer, keys);
    }
  }

  lemma {:induction false} KeysPrefixFree(older: Json, newer: Json, keys: seq<string>)
    requires older.Object? && newer.Object? && forall i, j :: 0 <= i < j < |keys| ==> keys[i] != keys[j]
    ensures PrefixFree(DiffKeys(older, newer, keys))
    ensures forall i :: 0 <= i < |DiffKeys(older, newer, keys)| ==>
      DiffKeys(older, newer, keys)[i].tokens != [] && DiffKeys(older, newer, keys)[i].tokens[0] in keys
    decreases older, 0, |keys|
  {
    if keys != [] {
      var key := keys[0];
      KeysPrefixFree(older, newer, keys[1..]);
      var edits := KeyEdits(older, newer, key);
      if key in older.members && key in newer.members { DiffPrefixFree(older.members[key], newer.members[key]); }
      Joins(key, edits, DiffKeys(older, newer, keys[1..]));
    }
  }

  lemma Joins(key: string, edits: seq<Edit>, rest: seq<Edit>)
    requires PrefixFree(edits) && PrefixFree(rest)
    requires forall i :: 0 <= i < |rest| ==> rest[i].tokens != [] && rest[i].tokens[0] != key
    ensures PrefixFree(Under(key, edits) + rest)
  {
    var all := Under(key, edits) + rest;
    forall i, j | 0 <= i < |all| && 0 <= j < |all| && i != j ensures !(all[i].tokens <= all[j].tokens) {
      if i < |edits| && j < |edits| {
        UnderPrefix(key, edits[i].tokens, edits[j].tokens);
      }
    }
  }

  lemma UnderPrefix(key: string, a: seq<string>, b: seq<string>)
    ensures [key] + a <= [key] + b <==> a <= b
  {
    assert ([key] + a)[1..] == a && ([key] + b)[1..] == b;
  }

  // ----- what is reported, told without the recursion -----

  predicate BothObjects(older: Option<Json>, newer: Option<Json>) {
    older.Some? && older.value.Object? && newer.Some? && newer.value.Object?
  }

  /** The two values differ at the tokens and are not both objects there, and they are both objects all the way down
      to them. */
  predicate Parts(older: Option<Json>, newer: Option<Json>, tokens: seq<string>) {
    && At(older, tokens) != At(newer, tokens)
    && !BothObjects(At(older, tokens), At(newer, tokens))
    && forall n :: 0 <= n < |tokens| ==> BothObjects(At(older, tokens[..n]), At(newer, tokens[..n]))
  }

  predicate HasTokens(edits: seq<Edit>, tokens: seq<string>) {
    exists i :: 0 <= i < |edits| && edits[i].tokens == tokens
  }

  lemma PartsBelow(older: Json, newer: Json, key: string, rest: seq<string>)
    requires older.Object? && newer.Object?
    ensures Parts(Some(older), Some(newer), [key] + rest) <==>
        Parts(Get(older.members, key), Get(newer.members, key), rest)
  {
    var tokens := [key] + rest;
    assert tokens[1..] == rest && tokens[..0] == [];
    forall n | 0 <= n < |rest|
      ensures At(Some(older), tokens[..n + 1]) == At(Get(older.members, key), rest[..n]) &&
          At(Some(newer), tokens[..n + 1]) == At(Get(newer.members, key), rest[..n])
    {
      assert tokens[..n + 1][1..] == rest[..n];
    }
    if Parts(Some(older), Some(newer), tokens) {
      forall n | 0 <= n < |rest| ensures BothObjects(At(Get(older.members, key), rest[..n]),
          At(Get(newer.members, key), rest[..n])) {
        assert BothObjects(At(Some(older), tokens[..n + 1]), At(Some(newer), tokens[..n + 1]));
      }
    } else if Parts(Get(older.members, key), Get(newer.members, key), rest) {
      forall n | 0 <= n < |tokens| ensures BothObjects(At(Some(older), tokens[..n]), At(Some(newer), tokens[..n])) {
        if n > 0 {
          assert BothObjects(At(Get(older.members, key), rest[..n - 1]), At(Get(newer.members, key), rest[..n - 1]));
        }
      }
    }
  }

  /** Where not both sides are objects, nothing below is reported. */
  lemma PartsHere(older: Option<Json>, newer: Option<Json>, tokens: seq<string>)
    requires !BothObjects(older, newer)
    ensures Parts(older, newer, tokens) <==> tokens == [] && older != newer
  {
    if tokens != [] { assert tokens[..0] == []; }
  }

  lemma {:induction false} KeysHave(older: Json, newer: Json, keys: seq<string>, key: string, rest: seq<string>)
    requires older.Object? && newer.Object?
    ensures HasTokens(DiffKeys(older, newer, keys), [key] + rest) <==>
        key in keys && HasTokens(KeyEdits(older, newer, key), rest)
    decreases |keys|
  {
    if keys != [] {
      var head, tail := Under(keys[0], KeyEdits(older, newer, keys[0])), DiffKeys(older, newer, keys[1..]);
      KeysHave(older, newer, keys[1..], key, rest);
      UnderHas(keys[0], KeyEdits(older, newer, keys[0]), key, rest);
      JoinHas(head, tail, [key] + rest);
    }
  }

  lemma UnderHas(under: string, edits: seq<Edit>, key: string, rest: seq<string>)
    ensures HasTokens(Under(under, edits), [key] + rest) <==> key == under && HasTokens(edits, rest)
  {
    if i :| 0 <= i < |edits| && Under(under, edits)[i].tokens == [key] + rest {
      assert ([under] + edits[i].tokens)[1..] == ([key] + rest)[1..];
    }
    if i :| 0 <= i < |edits| && edits[i].tokens == rest {
      assert Under(under, edits)[i].tokens == [under] + rest;
    }
  }

  lemma JoinHas(a: seq<Edit>, b: seq<Edit>, tokens: seq<string>)
    ensures HasTokens(a + b, tokens) <==> HasTokens(a, tokens) || HasTokens(b, tokens)
  {
    if i :| 0 <= i < |a| && a[i].tokens == tokens { assert (a + b)[i] == a[i]; }
    if i :| 0 <= i < |b| && b[i].tokens == tokens { assert (a + b)[|a| + i] == b[i]; }
  }

  lemma {:induction false} DiffHas(older: Json, newer: Json, tokens: seq<string>)
    ensures HasTokens(Diff(older, newer), tokens) <==> Parts(Some(older), Some(newer), tokens)
    decreases older
  {
    if older == newer {
    } else if !BothObjects(Some(older), Some(newer)) {
      PartsHere(Some(older), Some(newer), tokens);
      assert Diff(older, newer)[0].tokens == [];
    } else if tokens == [] {
      NothingAtRoot(older, newer);
    } else {
      assert tokens == [tokens[0]] + tokens[1..];
      ObjectsHave(older, newer, tokens[0], tokens[1..]);
      PartsBelow(older, newer, tokens[0], tokens[1..]);
      KeyHas(older, newer, tokens[0], tokens[1..]);
    }
  }

  lemma NothingAtRoot(older: Json, newer: Json)
    requires older.Object? && newer.Object?
    ensures !HasTokens(Diff(older, newer), [])
  {
    var keys := Sorted(older.members.Keys + newer.members.Keys);
    Distinct(keys);
    KeysPrefixFree(older, newer, keys);
  }

  lemma ObjectsHave(older: Json, newer: Json, key: string, rest: seq<string>)
    requires older.Object? && newer.Object? && older != newer
    ensures HasTokens(Diff(older, newer), [key] + rest) <==>
        (key in older.members || key in newer.members) && HasTokens(KeyEdits(older, newer, key), rest)
  {
    var keys := Sorted(older.members.Keys + newer.members.Keys);
    KeysHave(older, newer, keys, key, rest);
    assert key in keys <==> key in older.members || key in newer.members;
  }

  lemma {:induction false} KeyHas(older: Json, newer: Json, key: string, rest: seq<string>)
    requires older.Object? && newer.Object?
    ensures (key in older.members || key in newer.members) && HasTokens(KeyEdits(older, newer, key), rest) <==>
        Parts(Get(older.members, key), Get(newer.members, key), rest)
    decreases older, 0
  {
    if key in older.members && key in newer.members {
      DiffHas(older.members[key], newer.members[key], rest);
    } else {
      PartsHere(Get(older.members, key), Get(newer.members, key), rest);
      assert KeyEdits(older, newer, key)[0].tokens == [];
    }
  }

  /** Tokens compare level by level, in the order of sorted keys. */
  ghost predicate PathBefore(a: seq<string>, b: seq<string>) { exists n :: PartAt(a, b, n) }

  predicate PartAt(a: seq<string>, b: seq<string>, n: nat) {
    n < |a| && n < |b| && a[..n] == b[..n] && StringBefore(a[n], b[n])
  }

  ghost predicate InOrder(edits: seq<Edit>) {
    forall i, j :: 0 <= i < j < |edits| ==> PathBefore(edits[i].tokens, edits[j].tokens)
  }

  lemma {:induction false} DiffInOrder(older: Json, newer: Json)
    ensures InOrder(Diff(older, newer))
    decreases older, 1
  {
    if older != newer && older.Object? && newer.Object? {
      KeysInOrder(older, newer, Sorted(older.members.Keys + newer.members.Keys));
    }
  }

  lemma {:induction false} KeysInOrder(older: Json, newer: Json, keys: seq<string>)
    requires older.Object? && newer.Object? && Ascending(StringBefore, keys)
    ensures InOrder(DiffKeys(older, newer, keys))
    decreases older, 0, |keys|
  {
    if keys != [] {
      var key, edits, rest := keys[0], KeyEdits(older, newer, keys[0]), DiffKeys(older, newer, keys[1..]);
      KeysInOrder(older, newer, keys[1..]);
      if key in older.members && key in newer.members { DiffInOrder(older.members[key], newer.members[key]); }
      Distinct(keys[1..]);
      KeysPrefixFree(older, newer, keys[1..]);
      UnderInOrder(key, edits);
      forall i, j | 0 <= i < |edits| && 0 <= j < |rest|
        ensures PathBefore(Under(key, edits)[i].tokens, rest[j].tokens)
      {
        assert rest[j].tokens[0] in keys[1..];
        assert PartAt(Under(key, edits)[i].tokens, rest[j].tokens, 0);
      }
      OrderJoins(Under(key, edits), rest);
    }
  }

  lemma UnderInOrder(key: string, edits: seq<Edit>)
    requires InOrder(edits)
    ensures InOrder(Under(key, edits))
  {
    forall i, j | 0 <= i < j < |edits| ensures PathBefore(Under(key, edits)[i].tokens, Under(key, edits)[j].tokens) {
      assert PathBefore(edits[i].tokens, edits[j].tokens);
      PathUnder(key, edits[i].tokens, edits[j].tokens);
    }
  }

  lemma PathUnder(key: string, a: seq<string>, b: seq<string>)
    requires PathBefore(a, b)
    ensures PathBefore([key] + a, [key] + b)
  {
    var n: nat :| PartAt(a, b, n);
    var x, y := [key] + a, [key] + b;
    assert x[..n + 1] == [key] + a[..n] && y[..n + 1] == [key] + b[..n];
    assert PartAt(x, y, n + 1);
  }

  lemma OrderJoins(a: seq<Edit>, b: seq<Edit>)
    requires InOrder(a) && InOrder(b)
    requires forall i, j :: 0 <= i < |a| && 0 <= j < |b| ==> PathBefore(a[i].tokens, b[j].tokens)
    ensures InOrder(a + b)
  {
  }

  /** A pointer that continues another one names something inside it. */
  lemma PointerInside(p: seq<string>, q: seq<string>)
    requires Pointer(p) <= Pointer(q) && (|Pointer(q)| == |Pointer(p)| || Pointer(q)[|Pointer(p)|] == '/')
    ensures p <= q
  {
    var rest := Pointer(q)[|Pointer(p)|..];
    assert Pointer(p) + rest == Pointer(q);
    PointerReads(p, rest);
    PointerNames(q);
  }

  lemma EditsAreChanges(older: Json, newer: Json)
    ensures var c, edits := Changes(older, newer, ""), Diff(older, newer);
      && |c| == |edits|
      && forall i :: 0 <= i < |c| ==>
          c[i] == Record(Pointer(edits[i].tokens), edits[i]) && Tokens(c[i].path) == Some(edits[i].tokens)
  {
    assert Pointer([]) == "";
    Renders(older, newer, []);
    var c, edits := Changes(older, newer, ""), Diff(older, newer);
    forall i | 0 <= i < |c|
        ensures c[i] == Record(Pointer(edits[i].tokens), edits[i]) && Tokens(c[i].path) == Some(edits[i].tokens) {
      var p := edits[i].tokens;
      assert [] + p == p;
      PointerNames(p);
    }
  }

  /** Each record gives the value, or the absence, that stands at its pointer on each side; the two are never the
      same.  So a missing member is never taken for a null. */
  lemma ChangesAreTrue(older: Json, newer: Json, i: nat)
    requires i < |Changes(older, newer, "")|
    ensures var c := Changes(older, newer, "")[i];
      && Tokens(c.path).Some?
      && At(Some(older), Tokens(c.path).value) == Older(c)
      && At(Some(newer), Tokens(c.path).value) == Newer(c)
      && Older(c) != Newer(c)
  {
    EditsAreChanges(older, newer);
    DiffReports(older, newer);
    assert Reports(Some(older), Some(newer), Diff(older, newer)[i]);
  }

  /** The pointers are distinct, and none names something inside another. */
  lemma ChangesAreApart(older: Json, newer: Json, i: nat, j: nat)
    requires i < |Changes(older, newer, "")| && j < |Changes(older, newer, "")| && i != j
    ensures var c := Changes(older, newer, ""); c[i].path != c[j].path && !(c[i].path + "/" <= c[j].path)
  {
    EditsAreChanges(older, newer);
    DiffPrefixFree(older, newer);
    var c, edits := Changes(older, newer, ""), Diff(older, newer);
    if c[i].path == c[j].path || c[i].path + "/" <= c[j].path {
      PointerInside(edits[i].tokens, edits[j].tokens);
    }
  }

  predicate HasPointer(changes: seq<Change>, tokens: seq<string>) {
    exists i :: 0 <= i < |changes| && Tokens(changes[i].path) == Some(tokens)
  }

  /** A place is reported exactly when the values differ there, are not both objects there, and are both objects all
      the way down to it: so every difference is told at its finest, and only there. */
  lemma ReportedIff(older: Json, newer: Json, tokens: seq<string>)
    ensures HasPointer(Changes(older, newer, ""), tokens) <==> Parts(Some(older), Some(newer), tokens)
  {
    var c, edits := Changes(older, newer, ""), Diff(older, newer);
    EditsAreChanges(older, newer);
    DiffHas(older, newer, tokens);
    if i :| 0 <= i < |edits| && edits[i].tokens == tokens { assert Tokens(c[i].path) == Some(tokens); }
    if i :| 0 <= i < |c| && Tokens(c[i].path) == Some(tokens) { assert edits[i].tokens == tokens; }
  }

  /** No record has an object on both sides. */
  lemma ChangesAreFinest(older: Json, newer: Json, i: nat)
    requires i < |Changes(older, newer, "")|
    ensures var c := Changes(older, newer, "")[i]; !BothObjects(Older(c), Newer(c))
  {
    ChangesAreTrue(older, newer, i);
    ReportedIff(older, newer, Tokens(Changes(older, newer, "")[i].path).value);
  }

  /** The pointers come in the order of the sorted keys, level by level. */
  lemma ChangesAreOrdered(older: Json, newer: Json, i: nat, j: nat)
    requires i < j < |Changes(older, newer, "")|
    ensures var c := Changes(older, newer, "");
      && Tokens(c[i].path).Some? && Tokens(c[j].path).Some?
      && PathBefore(Tokens(c[i].path).value, Tokens(c[j].path).value)
  {
    EditsAreChanges(older, newer);
    DiffInOrder(older, newer);
  }
}
