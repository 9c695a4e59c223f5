/** The exact spelling of a receipt value: a tagged array, printed compactly. */
module ExactText {
  // The reader accepts no other spelling of a value than this one.

  import opened Prelude
  import opened JsonText
  import opened Ordering

  /** Values spelled by a library function with an inverse. */
  datatype Kind = Decimal | DateTime | Date | Bytes | Float

  /** `Other` stands for what cannot be spelled: another type, a dict with a key that is no string, a float that is
      not finite. */
  datatype Value<T> =
    | VNull
    | VBool(b: bool)
    | VInt(i: int)
    | VStr(s: string)
    | VScalar(kind: Kind, scalar: T)
    | VDict(entries: map<string, Value<T>>)
    | VList(items: seq<Value<T>>)
    | VTuple(items: seq<Value<T>>)
    | Other

  /** How the scalars are spelled and read. */
  datatype Codec<!T> = Codec(spell: (Kind, T) -> string, parse: (Kind, string) -> Option<T>)

  ghost predicate Lawful<T(!new)>(c: Codec<T>) { forall kind, x :: c.parse(kind, c.spell(kind, x)) == Some(x) }

  function Tag(kind: Kind): string {
    match kind
    case Decimal => "decimal"
    case DateTime => "datetime"
    case Date => "date"
    case Bytes => "bytes"
    case Float => "float"
  }

  function KindOf(tag: string): Option<Kind> {
    if tag == "decimal" then Some(Decimal)
    else if tag == "datetime" then Some(DateTime)
    else if tag == "date" then Some(Date)
    else if tag == "bytes" then Some(Bytes)
    else if tag == "float" then Some(Float)
    else None
  }

  function Tagged(tag: string, body: Json): Json { JArr([JStr(tag), body]) }

  function Pack<T>(c: Codec<T>, v: Value<T>): (r: Option<Json>)
    ensures r.Some? ==> Printable(r.value)
    decreases v, 1
  {
    match v
    case VNull => Some(Tagged("null", JNull))
    case VBool(b) => Some(Tagged("bool", JBool(b)))
    case VInt(i) => Some(Tagged("int", JInt(i)))
    case VStr(s) => Some(Tagged("str", JStr(s)))
    case VScalar(kind, x) => Some(Tagged(Tag(kind), JStr(c.spell(kind, x))))
    case VDict(entries) => Wrap("dict", PackPairs(c, v, Sorted(entries.Keys)))
    case VList(items) => Wrap("list", PackItems(c, items))
    case VTuple(items) => Wrap("list", PackItems(c, items))
    case Other => None
  }

  predicate AllPrintable(bodies: Option<seq<Json>>) {
    bodies.Some? ==> forall i :: 0 <= i < |bodies.value| ==> Printable(bodies.value[i])
  }

  function Wrap(tag: string, bodies: Option<seq<Json>>): (r: Option<Json>)
    ensures AllPrintable(bodies) && r.Some? ==> Printable(r.value)
  {
    match bodies
    case None => None
    case Some(items) => Some(Tagged(tag, JArr(items)))
  }

  function Push<A>(front: Option<seq<A>>, last: Option<A>): Option<seq<A>> {
    match (front, last)
    case (Some(items), Some(item)) => Some(items + [item])
    case _ => None
  }

  function PackItems<T>(c: Codec<T>, items: seq<Value<T>>): (r: Option<seq<Json>>)
    ensures AllPrintable(r)
    decreases items, 0
  {
    if items == [] then Some([])
    else Push(PackItems(c, items[..|items| - 1]), Pack(c, items[|items| - 1]))
  }

  /** The entries of a dict in the order of the keys. */
  function PackPairs<T>(c: Codec<T>, v: Value<T>, keys: seq<string>): (r: Option<seq<Json>>)
    requires v.VDict? && forall k :: k in keys ==> k in v.entries
    ensures AllPrintable(r)
    decreases v, 0, |keys|
  {
    if keys == [] then Some([])
    else
      var n := |keys| - 1;
      Push(PackPairs(c, v, keys[..n]), PairOf(keys[n], Pack(c, v.entries[keys[n]])))
  }

  function PairOf(key: string, child: Option<Json>): (r: Option<Json>)
    ensures child.Some? && Printable(child.value) ==> r.Some? && Printable(r.value)
  {
    match child
    case None => None
    case Some(j) => Some(JArr([JStr(key), j]))
  }

  function Exact<T>(c: Codec<T>, v: Value<T>): Option<string> {
    match Pack(c, v)
    case None => None
    case Some(j) => Some(Print(j))
  }

  // ----- reading -----

  /** A JSON value as it is; an object or a fraction never comes back from a spelling, so it is refused at once. */
  function Raw<T>(j: Json): Option<Value<T>> {
    match j
    case JNull => Some(VNull)
    case JBool(b) => Some(VBool(b))
    case JInt(i) => Some(VInt(i))
    case JStr(s) => Some(VStr(s))
    case JArr(items) =>
      (match RawItems(items)
       case None => None
       case Some(values) => Some(VList(values)))
    case _ => None
  }

  function RawItems<T>(items: seq<Json>): Option<seq<Value<T>>> {
    if items == [] then Some([])
    else Push(RawItems(items[..|items| - 1]), Raw(items[|items| - 1]))
  }

  /** The tag decides; a body of another shape is refused. */
  function Unpack<T>(c: Codec<T>, j: Json): Option<Value<T>>
    decreases j, 1
  {
    if !j.JArr? || |j.items| != 2 || !j.items[0].JStr? then None
    else
      var tag, body := j.items[0].s, j.items[1];
      if tag in ["null", "str", "bool", "int"] then Raw(body)
      else if tag == "dict" then
        if !body.JArr? then None
        else (match UnpackPairs(c, body.items)
              case None => None
              case Some(entries) => Some(VDict(entries)))
      else if tag == "list" then
        if !body.JArr? then None
        else (match UnpackItems(c, body.items)
              case None => None
              case Some(items) => Some(VList(items)))
      else if KindOf(tag).None? || !body.JStr? then None
      else (match c.parse(KindOf(tag).value, body.s)
            case None => None
            case Some(x) => Some(VScalar(KindOf(tag).value, x)))
  }

  function UnpackItems<T>(c: Codec<T>, items: seq<Json>): Option<seq<Value<T>>>
    decreases items, 0
  {
    if items == [] then Some([])
    else Push(UnpackItems(c, items[..|items| - 1]), Unpack(c, items[|items| - 1]))
  }

  /** A later entry of the same key replaces an earlier one. */
  function UnpackPairs<T>(c: Codec<T>, pairs: seq<Json>): Option<map<string, Value<T>>>
    decreases pairs, 0
  {
    if pairs == [] then Some(map[])
    else
      var last := pairs[|pairs| - 1];
      if !last.JArr? || |last.items| != 2 || !last.items[0].JStr? then None
      else Insert(UnpackPairs(c, pairs[..|pairs| - 1]), last.items[0].s, Unpack(c, last.items[1]))
  }

  function Insert<T>(front: Option<map<string, Value<T>>>, key: string,
      last: Option<Value<T>>): Option<map<string, Value<T>>> {
    match (front, last)
    case (Some(entries), Some(value)) => Some(entries[key := value])
    case _ => None
  }

  /** What the text spells, if it is the exact spelling of that. */
  function Decode<T(==)>(c: Codec<T>, text: string): Option<Value<T>> {
    match Loads(text)
    case None => None
    case Some(j) =>
      match Unpack(c, j)
      case None => None
      case Some(v) => if Exact(c, v) == Some(text) then Some(v) else None
  }

  /** Tuples are spelled as lists. */
  function Norm<T>(v: Value<T>): Value<T>
    decreases v, 1
  {
    match v
    case VDict(entries) => VDict(map k | k in entries :: Norm(entries[k]))
    case VList(items) => VList(NormItems(items))
    case VTuple(items) => VList(NormItems(items))
    case _ => v
  }

  function NormItems<T>(items: seq<Value<T>>): seq<Value<T>>
    decreases items, 0
  {
    if items == [] then [] else NormItems(items[..|items| - 1]) + [Norm(items[|items| - 1])]
  }

  // ----- round trip -----

  lemma {:induction false} UnpacksPacked<T(!new)>(c: Codec<T>, v: Value<T>)
    requires Lawful(c) && Pack(c, v).Some?
    ensures Unpack(c, Pack(c, v).value) == Some(Norm(v))
    decreases v, 1
  {
    if v.VDict? {
      UnpacksPairs(c, v, Sorted(v.entries.Keys));
      UnpacksDict(c, v);
    } else if v.VList? {
      UnpacksItems(c, v.items);
      UnpacksList(c, v);
    } else if v.VTuple? {
      UnpacksItems(c, v.items);
      UnpacksList(c, v);
    } else {
      UnpacksLeaf(c, v);
    }
  }

  lemma UnpacksLeaf<T(!new)>(c: Codec<T>, v: Value<T>)
    requires Lawful(c) && Pack(c, v).Some? && !v.VDict? && !v.VList? && !v.VTuple?
    ensures Unpack(c, Pack(c, v).value) == Some(Norm(v))
  {
    if v.VScalar? { assert KindOf(Tag(v.kind)) == Some(v.kind); }
  }

  lemma UnpacksList<T>(c: Codec<T>, v: Value<T>)
    requires (v.VList? || v.VTuple?) && PackItems(c, v.items).Some?
    requires UnpackItems(c, PackItems(c, v.items).value) == Some(NormItems(v.items))
    ensures Pack(c, v).Some? && Unpack(c, Pack(c, v).value) == Some(Norm(v))
  {
    ListTag(c, PackItems(c, v.items).value);
  }

  lemma ListTag<T>(c: Codec<T>, items: seq<Json>)
    ensures Unpack(c, Tagged("list", JArr(items))) == match UnpackItems(c, items) case None => None case Some(values) =>
        Some(VList(values))
  {
    var j := Tagged("list", JArr(items));
    assert j.items[0] == JStr("list") && j.items[1] == JArr(items);
  }

  lemma DictTag<T>(c: Codec<T>, pairs: seq<Json>)
    ensures Unpack(c, Tagged("dict", JArr(pairs))) == match UnpackPairs(c, pairs) case None =>
        None case Some(entries) => Some(VDict(entries))
  {
    var j := Tagged("dict", JArr(pairs));
    assert j.items[0] == JStr("dict") && j.items[1] == JArr(pairs);
  }

  lemma UnpacksDict<T>(c: Codec<T>, v: Value<T>)
    requires v.VDict? && Pack(c, v).Some?
    requires var pairs := PackPairs(c, v, Sorted(v.entries.Keys));
      pairs.Some? && UnpackPairs(c, pairs.value) == Some(NormKeys(v, Sorted(v.entries.Keys)))
    ensures Unpack(c, Pack(c, v).value) == Some(Norm(v))
  {
    DictTag(c, PackPairs(c, v, Sorted(v.entries.Keys)).value);
    NormOfSorted(v);
  }

  lemma NormOfSorted<T>(v: Value<T>)
    requires v.VDict?
    ensures Norm(v) == VDict(NormKeys(v, Sorted(v.entries.Keys)))
  {
    NormOfKeys(v, Sorted(v.entries.Keys));
  }

  lemma NormOfKeys<T>(v: Value<T>, keys: seq<string>)
    requires v.VDict? && forall k :: k in keys <==> k in v.entries
    ensures Norm(v) == VDict(NormKeys(v, keys))
  {
    var m := Norm(v).entries;
    assert m.Keys == NormKeys(v, keys).Keys;
    forall k | k in m ensures m[k] == NormKeys(v, keys)[k] {}
  }

  function NormKeys<T>(v: Value<T>, keys: seq<string>): map<string, Value<T>>
    requires v.VDict? && forall k :: k in keys ==> k in v.entries
  {
    map k | k in keys :: Norm(v.entries[k])
  }

  lemma {:induction false} UnpacksItems<T(!new)>(c: Codec<T>, items: seq<Value<T>>)
    requires Lawful(c) && PackItems(c, items).Some?
    ensures UnpackItems(c, PackItems(c, items).value) == Some(NormItems(items))
    decreases items, 0
  {
    if items != [] {
      var front, last := items[..|items| - 1], items[|items| - 1];
      UnpacksItems(c, front);
      UnpacksPacked(c, last);
      var bodies := PackItems(c, items).value;
      assert bodies == PackItems(c, front).value + [Pack(c, last).value];
      assert bodies[..|bodies| - 1] == PackItems(c, front).value;
    }
  }

  lemma {:induction false} UnpacksPairs<T(!new)>(c: Codec<T>, v: Value<T>, keys: seq<string>)
    requires Lawful(c) && v.VDict? && (forall k :: k in keys ==> k in v.entries) && PackPairs(c, v, keys).Some?
    ensures UnpackPairs(c, PackPairs(c, v, keys).value) == Some(NormKeys(v, keys))
    decreases v, 0, |keys|
  {
    if keys != [] {
      var front, key := keys[..|keys| - 1], keys[|keys| - 1];
      PairsLast(c, v, keys);
      UnpacksPairs(c, v, front);
      UnpacksPacked(c, v.entries[key]);
      LastKey(c, PackPairs(c, v, front).value, Pack(c, v.entries[key]).value, key, Norm(v.entries[key]),
          NormKeys(v, front));
      NormKeysLast(v, keys);
    }
  }

  lemma PairsLast<T>(c: Codec<T>, v: Value<T>, keys: seq<string>)
    requires v.VDict? && (forall k :: k in keys ==> k in v.entries) && keys != [] && PackPairs(c, v, keys).Some?
    ensures var front, key := keys[..|keys| - 1], keys[|keys| - 1];
      && PackPairs(c, v, front).Some? && Pack(c, v.entries[key]).Some?
      && PackPairs(c, v, keys).value
          == PackPairs(c, v, front).value + [JArr([JStr(key), Pack(c, v.entries[key]).value])]
  {
  }

  lemma NormKeysLast<T>(v: Value<T>, keys: seq<string>)
    requires v.VDict? && (forall k :: k in keys ==> k in v.entries) && keys != []
    ensures var front, key := keys[..|keys| - 1], keys[|keys| - 1];
      NormKeys(v, keys) == NormKeys(v, front)[key := Norm(v.entries[key])]
  {
  }

  lemma LastKey<T>(c: Codec<T>, before: seq<Json>, child: Json, key: string, value: Value<T>,
      entries: map<string, Value<T>>)
    requires UnpackPairs(c, before) == Some(entries) && Unpack(c, child) == Some(value)
    ensures UnpackPairs(c, before + [JArr([JStr(key), child])]) == Some(entries[key := value])
  {
    var pair := JArr([JStr(key), child]);
    var pairs := before + [pair];
    assert pairs[..|pairs| - 1] == before && pair.items[0] == JStr(key) && pair.items[1] == child;
  }

  lemma {:induction false} PacksNorm<T>(c: Codec<T>, v: Value<T>)
    ensures Pack(c, Norm(v)) == Pack(c, v)
    decreases v, 1
  {
    match v
    case VNull =>
    case VBool(_) =>
    case VInt(_) =>
    case VStr(_) =>
    case VScalar(_, _) =>
    case VDict(entries) =>
      assert Norm(v).entries.Keys == entries.Keys;
      PacksNormPairs(c, v, Sorted(entries.Keys));
    case VList(items) => PacksNormItems(c, items);
    case VTuple(items) => PacksNormItems(c, items);
    case Other =>
  }

  lemma {:induction false} PacksNormItems<T>(c: Codec<T>, items: seq<Value<T>>)
    ensures PackItems(c, NormItems(items)) == PackItems(c, items)
    decreases items, 0
  {
    if items != [] {
      var front, last := items[..|items| - 1], items[|items| - 1];
      PacksNormItems(c, front);
      PacksNorm(c, last);
      assert NormItems(items)[..|NormItems(items)| - 1] == NormItems(front);
    }
  }

  lemma {:induction false} PacksNormPairs<T>(c: Codec<T>, v: Value<T>, keys: seq<string>)
    requires v.VDict? && (forall k :: k in keys ==> k in v.entries)
    ensures PackPairs(c, Norm(v), keys) == PackPairs(c, v, keys)
    decreases v, 0, |keys|
  {
    if keys != [] {
      PacksNormPairs(c, v, keys[..|keys| - 1]);
      PacksNorm(c, v.entries[keys[|keys| - 1]]);
    }
  }

  /** What was spelled exactly is read back, tuples as lists. */
  lemma DecodesExact<T(!new)>(c: Codec<T>, v: Value<T>)
    requires Lawful(c) && Exact(c, v).Some?
    ensures Decode(c, Exact(c, v).value) == Some(Norm(v))
  {
    var j := Pack(c, v).value;
    LoadsPrinted(j);
    UnpacksPacked(c, v);
    PacksNorm(c, v);
  }

  /** Two values have one spelling exactly when they differ only in tuples against lists. */
  lemma ExactInjective<T(!new)>(c: Codec<T>, v: Value<T>, w: Value<T>)
    requires Lawful(c) && Exact(c, v).Some? && Exact(c, w).Some?
    ensures Exact(c, v) == Exact(c, w) <==> Norm(v) == Norm(w)
  {
    if Exact(c, v) == Exact(c, w) {
      DecodesExact(c, v);
      DecodesExact(c, w);
    } else {
      PacksNorm(c, v);
      PacksNorm(c, w);
    }
  }

  /** The reader accepts exactly the spellings, and gives back a value whose only spelling is that text. */
  lemma AcceptsOneSpelling<T(!new)>(c: Codec<T>, text: string)
    requires Lawful(c)
    ensures Decode(c, text).Some? <==> exists v :: Exact(c, v) == Some(text)
    ensures Decode(c, text).Some? ==>
        Exact(c, Decode(c, text).value) == Some(text) && Norm(Decode(c, text).value) == Decode(c, text).value
  {
    if v :| Exact(c, v) == Some(text) { DecodesExact(c, v); }
    if Decode(c, text).Some? { DecodesExact(c, Decode(c, text).value); }
  }

  /** A value has an exact spelling exactly when nothing unsupported is inside it. */
  predicate Supported<T>(v: Value<T>) {
    match v
    case VDict(entries) => forall k | k in entries :: Supported(entries[k])
    case VList(items) => forall i | 0 <= i < |items| :: Supported(items[i])
    case VTuple(items) => forall i | 0 <= i < |items| :: Supported(items[i])
    case Other => false
    case _ => true
  }

  lemma {:induction false} SpelledIff<T>(c: Codec<T>, v: Value<T>)
    ensures Pack(c, v).Some? <==> Supported(v)
    decreases v, 1
  {
    match v
    case VNull =>
    case VBool(_) =>
    case VInt(_) =>
    case VStr(_) =>
    case VScalar(_, _) =>
    case VDict(entries) =>
      var keys := Sorted(entries.Keys);
      SpelledPairs(c, v, keys);
      assert forall k :: k in keys <==> k in entries;
    case VList(items) => SpelledItems(c, items);
    case VTuple(items) => SpelledItems(c, items);
    case Other =>
  }

  lemma {:induction false} SpelledItems<T>(c: Codec<T>, items: seq<Value<T>>)
    ensures PackItems(c, items).Some? <==> forall i :: 0 <= i < |items| ==> Supported(items[i])
    decreases items, 0
  {
    if items != [] {
      SpelledItems(c, items[..|items| - 1]);
      SpelledIff(c, items[|items| - 1]);
    }
  }

  lemma {:induction false} SpelledPairs<T>(c: Codec<T>, v: Value<T>, keys: seq<string>)
    requires v.VDict? && (forall k :: k in keys ==> k in v.entries)
    ensures PackPairs(c, v, keys).Some? <==> forall k :: k in keys ==> Supported(v.entries[k])
    decreases v, 0, |keys|
  {
    if keys != [] {
      var front, key := keys[..|keys| - 1], keys[|keys| - 1];
      SpelledPairs(c, v, front);
      SpelledIff(c, v.entries[key]);
      assert keys == front + [key];
    }
  }

  // ----- the text itself -----

  function Commas(texts: seq<string>): string {
    if texts == [] then "" else if |texts| == 1 then texts[0] else texts[0] + "," + Commas(texts[1..])
  }

  function InQuotes(s: string): string { "\"" + s + "\"" }

  function Quoted(s: string): string { InQuotes(EscapeAll(s)) }

  function Bracketed(texts: seq<string>): string { "[" + Commas(texts) + "]" }

  /** These are the texts of the items. */
  predicate PrintAs(items: seq<Json>, texts: seq<string>) {
    |texts| == |items| && forall i :: 0 <= i < |items| ==> Printable(items[i]) && Print(items[i]) == texts[i]
  }

  lemma {:induction false} ItemsJoined(items: seq<Json>, texts: seq<string>)
    requires items != [] && PrintAs(items, texts)
    ensures PrintItems(items) == Commas(texts) + "]"
    decreases |items|
  {
    if |items| > 1 {
      assert PrintAs(items[1..], texts[1..]);
      ItemsJoined(items[1..], texts[1..]);
      Associates(texts[0] + ",", Commas(texts[1..]), "]");
    }
  }

  lemma ArrayPrints(items: seq<Json>, texts: seq<string>)
    requires PrintAs(items, texts)
    ensures Printable(JArr(items)) && Print(JArr(items)) == Bracketed(texts)
  {
    if items != [] {
      ItemsJoined(items, texts);
      Associates("[", Commas(texts), "]");
    }
  }

  lemma PairPrints(a: Json, b: Json)
    requires Printable(a) && Printable(b)
    ensures Printable(JArr([a, b])) && Print(JArr([a, b])) == Bracketed([Print(a), Print(b)])
  {
    ArrayPrints([a, b], [Print(a), Print(b)]);
  }

  lemma {:induction false} Plain(s: string)
    requires forall i :: 0 <= i < |s| ==> 'a' <= s[i] <= 'z'
    ensures EscapeAll(s) == s
  {
    if s != "" {
      Plain(s[1..]);
      assert s == [s[0]] + s[1..];
    }
  }

  lemma TaggedPrints(tag: string, body: Json)
    requires Printable(body) && forall i :: 0 <= i < |tag| ==> 'a' <= tag[i] <= 'z'
    ensures Printable(Tagged(tag, body)) && Print(Tagged(tag, body)) == Bracketed([InQuotes(tag), Print(body)])
  {
    Plain(tag);
    PairPrints(JStr(tag), body);
  }

  lemma TagSpelled<T>(c: Codec<T>, v: Value<T>, tag: string, body: Json)
    requires Pack(c, v) == Some(Tagged(tag, body)) && Printable(body)
    requires forall i :: 0 <= i < |tag| ==> 'a' <= tag[i] <= 'z'
    ensures Exact(c, v) == Some(Bracketed([InQuotes(tag), Print(body)]))
  {
    TaggedPrints(tag, body);
  }

  /** A value without parts is its tag and its text in brackets. */
  lemma PlainSpelled<T>(c: Codec<T>, b: bool, i: int, s: string)
    ensures Exact(c, VNull) == Some(Bracketed([InQuotes("null"), "null"]))
    ensures Exact(c, VBool(b)) == Some(Bracketed([InQuotes("bool"), if b then "true" else "false"]))
    ensures Exact(c, VInt(i)) == Some(Bracketed([InQuotes("int"), PrintInt(i)]))
    ensures Exact(c, VStr(s)) == Some(Bracketed([InQuotes("str"), Quoted(s)]))
  {
    SmallSpelled(c, b);
    TagSpelled(c, VInt(i), "int", JInt(i));
    TagSpelled(c, VStr(s), "str", JStr(s));
  }

  lemma SmallSpelled<T>(c: Codec<T>, b: bool)
    ensures Exact(c, VNull) == Some(Bracketed([InQuotes("null"), "null"]))
    ensures Exact(c, VBool(b)) == Some(Bracketed([InQuotes("bool"), if b then "true" else "false"]))
  {
    TagSpelled(c, VNull, "null", JNull);
    TagSpelled(c, VBool(b), "bool", JBool(b));
  }

  lemma ScalarSpelled<T>(c: Codec<T>, kind: Kind, x: T)
    ensures Exact(c, VScalar(kind, x)) ==
      Some(Bracketed([InQuotes(match kind case Decimal => "decimal" case DateTime => "datetime" case Date => "date"
                               case Bytes => "bytes" case Float => "float"), Quoted(c.spell(kind, x))]))
  {
    var body := JStr(c.spell(kind, x));
    match kind
    case Decimal => TaggedPrints("decimal", body);
    case DateTime => TaggedPrints("datetime", body);
    case Date => TaggedPrints("date", body);
    case Bytes => TaggedPrints("bytes", body);
    case Float => TaggedPrints("float", body);
  }

  /** A list or a tuple is the tag and, in brackets, the spellings of its items in order. */
  lemma ListSpelled<T>(c: Codec<T>, items: seq<Value<T>>, texts: seq<string>)
    requires |texts| == |items| && forall i :: 0 <= i < |items| ==> Exact(c, items[i]) == Some(texts[i])
    ensures Exact(c, VList(items)) == Exact(c, VTuple(items)) == Some(Bracketed([InQuotes("list"), Bracketed(texts)]))
  {
    ItemsPacked(c, items, texts);
    var bodies := PackItems(c, items).value;
    ArrayPrints(bodies, texts);
    TaggedPrints("list", JArr(bodies));
    assert Pack(c, VList(items)) == Some(Tagged("list", JArr(bodies))) == Pack(c, VTuple(items));
  }

  lemma {:induction false} ItemsPacked<T>(c: Codec<T>, items: seq<Value<T>>, texts: seq<string>)
    requires |texts| == |items| && forall i :: 0 <= i < |items| ==> Exact(c, items[i]) == Some(texts[i])
    ensures PackItems(c, items).Some? && PrintAs(PackItems(c, items).value, texts)
    decreases |items|
  {
    if items != [] {
      var n := |items| - 1;
      ItemsPacked(c, items[..n], texts[..n]);
      assert Exact(c, items[n]) == Some(texts[n]);
    }
  }

  /** A dict is the tag and, in brackets, its entries in the order of their keys: key and spelling in brackets. */
  lemma DictSpelled<T>(c: Codec<T>, entries: map<string, Value<T>>, keys: seq<string>, texts: seq<string>)
    requires Ascending(StringBefore, keys) && forall k :: k in keys <==> k in entries
    requires |texts| == |keys| && forall i :: 0 <= i < |keys| ==> Exact(c, entries[keys[i]]) == Some(texts[i])
    ensures Exact(c, VDict(entries)) == Some(Bracketed([InQuotes("dict"), Bracketed(EntryTexts(keys, texts))]))
  {
    OneSorted(keys, entries.Keys);
    EntriesSpelled(c, VDict(entries), keys, texts);
  }

  lemma EntriesSpelled<T>(c: Codec<T>, v: Value<T>, keys: seq<string>, texts: seq<string>)
    requires v.VDict? && keys == Sorted(v.entries.Keys) && |texts| == |keys|
    requires forall i :: 0 <= i < |keys| ==> Exact(c, v.entries[keys[i]]) == Some(texts[i])
    ensures Exact(c, v) == Some(Bracketed([InQuotes("dict"), Bracketed(EntryTexts(keys, texts))]))
  {
    PairsPacked(c, v, keys, texts);
    var bodies := PackPairs(c, v, keys).value;
    ArrayPrints(bodies, EntryTexts(keys, texts));
    TagSpelled(c, v, "dict", JArr(bodies));
  }

  lemma OneSorted(keys: seq<string>, s: set<string>)
    requires Ascending(StringBefore, keys) && forall k :: k in keys <==> k in s
    ensures Sorted(s) == keys
  {
    StringsStrictTotal();
    OneListing(StringBefore, keys, Sorted(s));
  }

  lemma LastPrints(front: seq<Json>, before: seq<string>, last: Json, texts: seq<string>)
    requires PrintAs(front, before) && |texts| == |before| + 1 && texts[..|before|] == before
    requires Printable(last) && Print(last) == texts[|before|]
    ensures PrintAs(front + [last], texts)
  {
    forall i | 0 <= i < |front| ensures Printable(front[i]) && Print(front[i]) == texts[i] {
      assert texts[i] == before[i];
    }
  }

  function EntryTexts(keys: seq<string>, texts: seq<string>): (r: seq<string>)
    requires |texts| == |keys|
    ensures |r| == |keys|
  {
    seq(|keys|, i requires 0 <= i < |keys| => Bracketed([Quoted(keys[i]), texts[i]]))
  }

  lemma {:induction false} PairsPacked<T>(c: Codec<T>, v: Value<T>, keys: seq<string>, texts: seq<string>)
    requires v.VDict? && |texts| == |keys| && forall k :: k in keys ==> k in v.entries
    requires forall i :: 0 <= i < |keys| ==> Exact(c, v.entries[keys[i]]) == Some(texts[i])
    ensures PackPairs(c, v, keys).Some? && PrintAs(PackPairs(c, v, keys).value, EntryTexts(keys, texts))
    decreases |keys|
  {
    if keys != [] {
      var n := |keys| - 1;
      PairsPacked(c, v, keys[..n], texts[..n]);
      assert Exact(c, v.entries[keys[n]]) == Some(texts[n]);
      var child := Pack(c, v.entries[keys[n]]).value;
      PairPrints(JStr(keys[n]), child);
      var front := PackPairs(c, v, keys[..n]).value;
      assert PackPairs(c, v, keys) == Some(front + [JArr([JStr(keys[n]), child])]);
      LastPrints(front, EntryTexts(keys[..n], texts[..n]), JArr([JStr(keys[n]), child]), EntryTexts(keys, texts));
    }
  }
}
