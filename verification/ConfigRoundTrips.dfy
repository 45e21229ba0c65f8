/** End-to-end guarantees of providers that load from a map. */
module ConfigRoundTrips {
  import opened Options
  import opened Paths
  import opened ConfigErrors
  import opened ConfigProviders
  import opened ConfigLoading
  import opened ConfigMaps
  import opened ConfigTables

  // ----- The insertion order of the map

  ghost predicate Unique(entries: seq<Stored>, delim: char) {
    forall i, j :: 0 <= i < j < |entries| ==> PathOf(entries[i].key, delim) != PathOf(entries[j].key, delim)
  }

  lemma {:induction false} SameKeySamePath(e: Stored, f: Stored, delim: char)
    requires Separates(delim) && KeyOf(e, delim) == KeyOf(f, delim)
    ensures PathOf(e.key, delim) == PathOf(f.key, delim)
  {
    SplitStored(e.key, delim);
    SplitStored(f.key, delim);
  }

  lemma {:induction false} PermutationHas<T>(a: seq<T>, b: seq<T>, i: nat) returns (j: nat)
    requires multiset(a) == multiset(b) && i < |a|
    ensures j < |b| && b[j] == a[i]
  {
    assert a[i] in multiset(b);
    j :| 0 <= j < |b| && b[j] == a[i];
  }

  lemma {:induction false} IndexedText(a: seq<Stored>, delim: char, i: nat)
    requires Separates(delim) && Unique(a, delim) && i < |a|
    ensures KeyOf(a[i], delim) in Indexed(a, delim) && Indexed(a, delim)[KeyOf(a[i], delim)] == a[i].text
  {
    KeysAreIndexed(a, delim, i);
    var j := IndexedKeysAreStored(a, delim, KeyOf(a[i], delim));
    SameKeySamePath(a[i], a[j], delim);
    assert i == j;
  }

  lemma {:induction false} IndexedElsewhere(a: seq<Stored>, b: seq<Stored>, delim: char, key: string)
    requires Separates(delim) && Unique(a, delim) && Unique(b, delim) && multiset(a) == multiset(b)
    requires key in Indexed(a, delim)
    ensures key in Indexed(b, delim) && Indexed(b, delim)[key] == Indexed(a, delim)[key]
  {
    var i := IndexedKeysAreStored(a, delim, key);
    var j := PermutationHas(a, b, i);
    IndexedText(b, delim, j);
  }

  /** If no two keys stand for the same path, the order of insertion does not matter. */
  lemma {:induction false} IndexedIgnoresOrder(a: seq<Stored>, b: seq<Stored>, delim: char)
    requires Separates(delim) && Unique(a, delim) && Unique(b, delim) && multiset(a) == multiset(b)
    ensures Indexed(a, delim) == Indexed(b, delim)
  {
    var m, n := Indexed(a, delim), Indexed(b, delim);
    forall key | key in m ensures key in n && m[key] == n[key] { IndexedElsewhere(a, b, delim, key); }
    forall key | key in n ensures key in m { IndexedElsewhere(b, a, delim, key); }
    assert m.Keys == n.Keys;
  }

  lemma {:induction false} ListsAlike(r: Either<ConfigError, seq<string>>, s: Either<ConfigError, seq<string>>,
                                      a: seq<Stored>, b: seq<Stored>, p: Path, delim: char)
    requires Lists(r, a, p, delim) && Lists(s, b, p, delim) && Indexed(a, delim) == Indexed(b, delim)
    ensures Permuted(r, s)
  {
    DistinctPermutation(r.right, s.right);
  }

  lemma {:induction false} MapsAgree(
      f: Flat, g: Flat, a: seq<Stored>, b: seq<Stored>, pathDelim: char, seqDelim: char, prefix: Path)
    requires Separates(pathDelim) && Unique(a, pathDelim) && Unique(b, pathDelim) && multiset(a) == multiset(b)
    requires Serves(f, a, pathDelim, seqDelim) && Serves(g, b, pathDelim, seqDelim)
    ensures Agree(f, g, prefix)
  {
    IndexedIgnoresOrder(a, b, pathDelim);
    forall p ensures Permuted(f.enumerateChildren(p), g.enumerateChildren(p)) {
      assert Lists(f.enumerateChildren(p), a, p, pathDelim) && Lists(g.enumerateChildren(p), b, p, pathDelim);
      ListsAlike(f.enumerateChildren(p), g.enumerateChildren(p), a, b, p, pathDelim);
    }
  }

  /** Every configuration without tables loads the same, whatever the order of insertion and whatever
      the order in which the provider lists children. */
  lemma {:induction false} LoadingIgnoresInsertionOrder(
      f: Flat, g: Flat, a: seq<Stored>, b: seq<Stored>, pathDelim: char, seqDelim: char,
      prefix: Path, config: Config, split: bool)
    requires Separates(pathDelim) && Unique(a, pathDelim) && Unique(b, pathDelim) && multiset(a) == multiset(b)
    requires Serves(f, a, pathDelim, seqDelim) && Serves(g, b, pathDelim, seqDelim) && !HasTable(config)
    ensures Loop(f, prefix, config, split) == Loop(g, prefix, config, split)
  {
    MapsAgree(f, g, a, b, pathDelim, seqDelim, prefix);
    LoadingIsLocal(f, g, prefix, config, split);
  }

  /** With tables too, as long as they are neither in sequences nor decide about a fallback by their
      errors, a configuration loads the same from both maps or fails from both. */
  lemma {:induction false} TablesIgnoreInsertionOrder(
      f: Flat, g: Flat, a: seq<Stored>, b: seq<Stored>, pathDelim: char, seqDelim: char, prefix: Path, config: Config)
    requires Separates(pathDelim) && Unique(a, pathDelim) && Unique(b, pathDelim) && multiset(a) == multiset(b)
    requires Serves(f, a, pathDelim, seqDelim) && Serves(g, b, pathDelim, seqDelim) && OrderFree(config)
    ensures SameSuccess(Loop(f, prefix, config, false), Loop(g, prefix, config, false))
  {
    MapsAgree(f, g, a, b, pathDelim, seqDelim, prefix);
    MapsAreFaithful(f, a, pathDelim, seqDelim);
    MapsAreFaithful(g, b, pathDelim, seqDelim);
    LoadsWhateverTheOrder(f, g, prefix, config);
  }

  // ----- Lists

  ghost predicate StrictlyAscending(ns: seq<nat>) {
    forall i, j :: 0 <= i < j < |ns| ==> ns[i] < ns[j]
  }

  /** The texts are stored below the path, each under its index, and nothing else is. */
  ghost predicate ListStored(entries: seq<Stored>, delim: char, path: Path, ns: seq<nat>, texts: seq<string>) {
    && |ns| == |texts|
    && (forall i :: 0 <= i < |texts| ==> TextAt(entries, delim, path + [Quoted(ns[i])]) == Some(texts[i]))
    && (forall child :: HasChild(Indexed(entries, delim), path, delim, child) <==> child in QuoteAll(ns))
  }

  lemma {:induction false} QuotedDistinct(ns: seq<nat>)
    requires StrictlyAscending(ns)
    ensures Distinct(QuoteAll(ns)) && Ascending(ns)
  {
    forall i, j | 0 <= i < j < |ns| ensures QuoteAll(ns)[i] != QuoteAll(ns)[j] {
      ReadWrittenIndex("", ns[i]);
      ReadWrittenIndex("", ns[j]);
    }
  }

  lemma {:induction false} QuotedIsFree(n: nat, delim: char)
    requires Separates(delim)
    ensures delim !in Quoted(n)
  {
    forall i | 0 <= i < |Quoted(n)| ensures Quoted(n)[i] != delim {
      if 0 < i < |Quoted(n)| - 1 { assert Quoted(n)[i] == Decimal(n)[i - 1]; }
    }
  }

  lemma {:induction false} OnePiece(text: string, delim: char)
    requires delim !in text
    ensures Split(text, delim) == [text]
  {
    SplitSegment(text, "", delim);
    assert text + "" == text;
  }

  lemma {:induction false} TraverseOne<A, B>(x: A, f: A -> Either<ConfigError, B>, y: B)
    requires f(x) == Right(y)
    ensures Traverse([x], f) == Right([y])
  {
    assert [x][1..] == [];
    assert Traverse([x][1..], f) == Right([]);
    assert [y] + [] == [y];
  }

  lemma {:induction false} OneTextParses(text: string, path: Path, parse: Parser, delim: char, v: Value)
    requires delim !in text && parse(Trimmed(text)) == Right(v)
    ensures ParsePrimitive(text, path, parse, delim, true) == Right([v])
  {
    OnePiece(text, delim);
    var t, f := Trimmed(text), PrefixParser(parse, path);
    assert TrimAll([text][1..]) == [];
    assert TrimAll([text]) == [t];
    assert f(t) == Right(v);
    TraverseOne(t, f, v);
  }

  lemma {:induction false} TextLoads(
      entries: seq<Stored>, pathDelim: char, seqDelim: char, path: Path, text: string, parse: Parser)
    requires Separates(pathDelim) && path != [] && Free(path, pathDelim)
    requires TextAt(entries, pathDelim, path) == Some(text)
    ensures LoadText(Indexed(entries, pathDelim), path, parse, true, pathDelim, seqDelim) ==
      ParsePrimitive(text, path, parse, seqDelim, true)
  {
    LookupFindsPath(entries, pathDelim, path);
  }

  lemma {:induction false} ElementLoads(
      flat: Flat, entries: seq<Stored>, pathDelim: char, seqDelim: char, path: Path, text: string, parse: Parser, v: Value)
    requires Serves(flat, entries, pathDelim, seqDelim) && Separates(pathDelim) && path != [] && Free(path, pathDelim)
    requires TextAt(entries, pathDelim, path) == Some(text) && seqDelim !in text
    requires parse(Trimmed(text)) == Right(v)
    ensures Loop(flat, path, Primitive(parse), true) == Right([v])
  {
    TextLoads(entries, pathDelim, seqDelim, path, text, parse);
    OneTextParses(text, path, parse, seqDelim, v);
    assert flat.load(path, parse, true) == Right([v]);
  }

  ghost predicate Parse(texts: seq<string>, seqDelim: char, parse: Parser, vs: seq<Value>) {
    |vs| == |texts| &&
    forall i :: 0 <= i < |texts| ==> seqDelim !in texts[i] && parse(Trimmed(texts[i])) == Right(vs[i])
  }

  function Singles(vs: seq<Value>): (r: seq<seq<Value>>)
    ensures |r| == |vs| && forall i :: 0 <= i < |vs| ==> r[i] == [vs[i]]
  {
    if vs == [] then [] else [[vs[0]]] + Singles(vs[1..])
  }

  lemma {:induction false} FlattenSingles(vs: seq<Value>)
    ensures Flatten(Singles(vs)) == vs
  {
    if vs == [] {
    } else {
      FlattenSingles(vs[1..]);
      assert Singles(vs)[1..] == Singles(vs[1..]);
      assert vs == [vs[0]] + vs[1..];
    }
  }

  /** A non-empty list whose texts are stored under ascending indices, with or without gaps, loads as
      the list of the parsed texts, in order, wherever in the map the entries are. */
  lemma {:induction false} ListsRoundTrip(
      flat: Flat, entries: seq<Stored>, pathDelim: char, seqDelim: char,
      path: Path, ns: seq<nat>, texts: seq<string>, parse: Parser, vs: seq<Value>, split: bool)
    requires Serves(flat, entries, pathDelim, seqDelim) && Separates(pathDelim) && Free(path, pathDelim)
    requires StrictlyAscending(ns) && ns != [] && ListStored(entries, pathDelim, path, ns, texts)
    requires Parse(texts, seqDelim, parse, vs)
    ensures Loop(flat, path, Sequence(Primitive(parse)), split) == Right([List(vs)])
  {
    assert Lists(flat.enumerateChildren(path), entries, path, pathDelim);
    var keys := flat.enumerateChildren(path).right;
    QuotedDistinct(ns);
    DistinctPermutation(keys, QuoteAll(ns));
    forall i | 0 <= i < |ns|
      ensures Loop(flat, path + [Quoted(ns[i])], Primitive(parse), true) == Right(Singles(vs)[i])
    {
      QuotedIsFree(ns[i], pathDelim);
      ElementLoads(flat, entries, pathDelim, seqDelim, path + [Quoted(ns[i])], texts[i], parse, vs[i]);
    }
    FlattenSingles(vs);
    IndexedSequenceLoadsInOrder(flat, path, Primitive(parse), keys, ns, Singles(vs), split);
  }

  // ----- Keys as they are written

  /** A part of a key: a name, with an index behind it or not. */
  datatype Part = Part(name: string, index: Option<nat>)
  {
    function Written(): string {
      match index case None => name case Some(n) => name + Quoted(n)
    }

    /** The segments the part stands for. */
    function Segments(): Path {
      match index case None => [name] case Some(n) => [name, Quoted(n)]
    }

    /** The name is one for the delimiter, and does not end like an index unless one is behind it. */
    ghost predicate Proper(delim: char) {
      delim !in name && if index == None then SplitIndexFrom(name) == None else name != ""
    }
  }

  function WrittenParts(parts: seq<Part>): (r: Path)
    ensures |r| == |parts| && forall i :: 0 <= i < |parts| ==> r[i] == parts[i].Written()
  {
    if parts == [] then [] else [parts[0].Written()] + WrittenParts(parts[1..])
  }

  function SegmentsOf(parts: seq<Part>): Path {
    if parts == [] then [] else parts[0].Segments() + SegmentsOf(parts[1..])
  }

  lemma {:induction false} PartExpands(part: Part, delim: char)
    requires Separates(delim) && part.Proper(delim)
    ensures delim !in part.Written() && Expand(part.Written()) == part.Segments()
  {
    if part.index.Some? {
      QuotedIsFree(part.index.value, delim);
      ReadWrittenIndex(part.name, part.index.value);
    }
  }

  lemma {:induction false} PartsExpand(parts: seq<Part>, delim: char)
    requires Separates(delim) && forall i :: 0 <= i < |parts| ==> parts[i].Proper(delim)
    ensures ExpandAll(WrittenParts(parts)) == SegmentsOf(parts)
  {
    if parts == [] {
    } else {
      PartExpands(parts[0], delim);
      PartsExpand(parts[1..], delim);
    }
  }

  /** A key written as parts between delimiters stands for their segments, each index behind its name. */
  lemma {:induction false} KeysStandForTheirParts(parts: seq<Part>, delim: char)
    requires Separates(delim) && parts != [] && forall i :: 0 <= i < |parts| ==> parts[i].Proper(delim)
    ensures PathOf(Join(WrittenParts(parts), delim), delim) == SegmentsOf(parts)
  {
    var written := WrittenParts(parts);
    forall i | 0 <= i < |parts| ensures delim !in written[i] { PartExpands(parts[i], delim); }
    SplitJoin(written, delim);
    PartsExpand(parts, delim);
  }
}
