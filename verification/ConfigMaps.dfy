/** The provider that loads from a map of path strings to texts. */
module ConfigMaps {
  import opened Options
  import opened Paths
  import opened ConfigErrors
  import opened PathPatches
  import opened ConfigProviders
  import opened ConfigLoading

  /** A map's entries in the order in which they were inserted. */
  datatype Stored = Stored(key: string, text: string)

  /** The path a key stands for, indices being segments of their own. */
  function PathOf(key: string, delim: char): (r: Path)
    ensures r != []
  {
    ExpandAll(Split(key, delim))
  }

  function Indexed(entries: seq<Stored>, delim: char): map<string, string> {
    if entries == [] then map[]
    else
      var last := entries[|entries| - 1];
      Indexed(entries[..|entries| - 1], delim)[Join(PathOf(last.key, delim), delim) := last.text]
  }

  /** Rewrites the keys so that indices are segments of their own. */
  method SplitIndexInKeys(entries: seq<Stored>, delim: char) returns (newMap: map<string, string>)
    ensures newMap == Indexed(entries, delim)
  {
    newMap := map[];
    for i := 0 to |entries|
      invariant newMap == Indexed(entries[..i], delim)
    {
      assert entries[..i + 1][..i] == entries[..i];
      var keyWithIndex := SplitIndices(Split(entries[i].key, delim));
      newMap := newMap[Join(keyWithIndex, delim) := entries[i].text];
    }
    assert entries[..|entries|] == entries;
  }

  lemma {:induction false} ExpandNext(path: Path, segments: Path, j: nat)
    requires j < |segments|
    ensures path + ExpandAll(segments[j..]) == (path + Expand(segments[j])) + ExpandAll(segments[j + 1..])
  {
    var first, rest := Expand(segments[j]), ExpandAll(segments[j + 1..]);
    assert segments[j..][0] == segments[j] && segments[j..][1..] == segments[j + 1..];
    assert ExpandAll(segments[j..]) == first + rest;
    assert path + (first + rest) == (path + first) + rest;
  }

  method SplitIndices(segments: Path) returns (path: Path)
    ensures path == ExpandAll(segments)
  {
    path := [];
    assert segments[0..] == segments && path + ExpandAll(segments) == ExpandAll(segments);
    for j := 0 to |segments|
      invariant path + ExpandAll(segments[j..]) == ExpandAll(segments)
    {
      ExpandNext(path, segments, j);
      var split := SplitIndexFrom(segments[j]);
      if split == None {
        path := path + [segments[j]];
      } else {
        path := path + [split.value.0, Quoted(split.value.1)];
      }
    }
    assert path + [] == path;
  }

  // ----- A map keyed by paths

  /** The text last stored under a key that stands for the path. */
  ghost function TextAt(entries: seq<Stored>, delim: char, path: Path): Option<string> {
    if entries == [] then None
    else
      var last := entries[|entries| - 1];
      if PathOf(last.key, delim) == path then Some(last.text) else TextAt(entries[..|entries| - 1], delim, path)
  }

  function Lookup(m: map<string, string>, key: string): Option<string> {
    if key in m then Some(m[key]) else None
  }

  lemma {:induction false} PathOfIsFree(key: string, delim: char)
    requires Separates(delim)
    ensures Free(PathOf(key, delim), delim)
  {
    SplitIsFree(key, delim);
    ExpandAllIsFree(Split(key, delim), delim);
  }

  /** Looking up the joined path finds exactly the text of that path. */
  lemma {:induction false} LookupFindsPath(entries: seq<Stored>, delim: char, path: Path)
    requires Separates(delim) && path != [] && Free(path, delim)
    ensures Lookup(Indexed(entries, delim), Join(path, delim)) == TextAt(entries, delim, path)
  {
    if entries == [] {
    } else {
      var last := entries[|entries| - 1];
      LookupFindsPath(entries[..|entries| - 1], delim, path);
      PathOfIsFree(last.key, delim);
      JoinAlikeIff(PathOf(last.key, delim), path, delim);
    }
  }

  /** The empty path is not told apart from the path of one empty segment. */
  lemma {:induction false} LookupAtRoot(entries: seq<Stored>, delim: char)
    requires Separates(delim)
    ensures Lookup(Indexed(entries, delim), Join([], delim)) == TextAt(entries, delim, [""])
  {
    assert Free([""], delim) && Join([""], delim) == Join([], delim);
    LookupFindsPath(entries, delim, [""]);
  }

  // ----- Children

  ghost predicate HasChild(m: map<string, string>, path: Path, delim: char, child: string) {
    exists key :: key in m && path + [child] <= Split(key, delim)
  }

  /** Whether the key path agrees with the path on all of its components. */
  method Matches(keyPath: Path, path: Path) returns (b: bool)
    ensures b <==> path <= keyPath
  {
    for i := 0 to |path|
      invariant i <= |keyPath| && path[..i] == keyPath[..i]
    {
      if i >= |keyPath| || path[i] != keyPath[i] {
        return false;
      }
    }
    return true;
  }

  lemma ChildAt(keyPath: Path, path: Path, child: string)
    ensures path + [child] <= keyPath <==> path <= keyPath && |keyPath| > |path| && keyPath[|path|] == child
  {
    if |keyPath| > |path| && path <= keyPath {
      assert keyPath[..|path| + 1] == path + [keyPath[|path|]];
    }
    assert (path + [child])[..|path|] == path && (path + [child])[|path|] == child;
  }

  method EnumerateChildren(m: map<string, string>, path: Path, delim: char) returns (children: set<string>)
    ensures forall child :: child in children <==> HasChild(m, path, delim, child)
  {
    children := {};
    var keys := m.Keys;
    while keys != {}
      invariant keys <= m.Keys
      invariant forall child :: child in children <==> HasChildIn(m.Keys - keys, path, delim, child)
    {
      var key :| key in keys;
      ghost var before, seen := children, m.Keys - keys;
      var keyPath := Split(key, delim);
      var b := Matches(keyPath, path);
      if b && |keyPath| > |path| {
        children := children + {keyPath[|path|]};
      }
      keys := keys - {key};
      assert m.Keys - keys == seen + {key};
      forall child ensures child in children <==> HasChildIn(seen + {key}, path, delim, child) {
        ChildAt(keyPath, path, child);
        OneMoreKey(seen, key, path, delim, child);
      }
    }
  }

  ghost predicate HasChildIn(keys: set<string>, path: Path, delim: char, child: string) {
    exists key :: key in keys && path + [child] <= Split(key, delim)
  }

  lemma OneMoreKey(keys: set<string>, key: string, path: Path, delim: char, child: string)
    ensures HasChildIn(keys + {key}, path, delim, child) <==>
      HasChildIn(keys, path, delim, child) || path + [child] <= Split(key, delim)
  {
    if HasChildIn(keys, path, delim, child) {
      var k :| k in keys && path + [child] <= Split(k, delim);
      assert k in keys + {key};
    }
    if path + [child] <= Split(key, delim) { assert key in keys + {key}; }
  }

  function KeyOf(e: Stored, delim: char): string {
    Join(PathOf(e.key, delim), delim)
  }

  lemma {:induction false} KeysAreIndexed(entries: seq<Stored>, delim: char, i: nat)
    requires i < |entries|
    ensures KeyOf(entries[i], delim) in Indexed(entries, delim)
  {
    if i < |entries| - 1 {
      KeysAreIndexed(entries[..|entries| - 1], delim, i);
    }
  }

  lemma {:induction false} IndexedKeysAreStored(entries: seq<Stored>, delim: char, key: string) returns (i: nat)
    requires key in Indexed(entries, delim)
    ensures i < |entries| && key == KeyOf(entries[i], delim) && Indexed(entries, delim)[key] == entries[i].text
  {
    var n := |entries| - 1;
    if key == KeyOf(entries[n], delim) {
      i := n;
    } else {
      i := IndexedKeysAreStored(entries[..n], delim, key);
    }
  }

  /** The children of a path are exactly the next segments of the paths stored below it. */
  lemma {:induction false} ChildrenAreNextSegments(entries: seq<Stored>, delim: char, path: Path, child: string)
    requires Separates(delim)
    ensures HasChild(Indexed(entries, delim), path, delim, child) <==>
      StoredBelow(entries, delim, path + [child])
  {
    var m := Indexed(entries, delim);
    if HasChild(m, path, delim, child) {
      var key :| key in m && path + [child] <= Split(key, delim);
      var i := IndexedKeysAreStored(entries, delim, key);
      SplitStored(entries[i].key, delim);
      assert Below(entries[i], delim, path + [child]);
    }
    if StoredBelow(entries, delim, path + [child]) {
      var i :| 0 <= i < |entries| && Below(entries[i], delim, path + [child]);
      SplitStored(entries[i].key, delim);
      KeysAreIndexed(entries, delim, i);
      assert KeyOf(entries[i], delim) in m;
    }
  }

  lemma {:induction false} SplitStored(key: string, delim: char)
    requires Separates(delim)
    ensures Split(Join(PathOf(key, delim), delim), delim) == PathOf(key, delim)
  {
    PathOfIsFree(key, delim);
    SplitJoin(PathOf(key, delim), delim);
  }

  // ----- The provider

  predicate Space(c: char) {
    c in " \t\n\r\U{000B}\U{000C}\U{00A0}\U{1680}\U{2028}\U{2029}\U{202F}\U{205F}\U{3000}\U{FEFF}" ||
    '\U{2000}' <= c <= '\U{200A}'
  }

  function TrimStart(s: string): string {
    if s != "" && Space(s[0]) then TrimStart(s[1..]) else s
  }

  function TrimEnd(s: string): string {
    if s != "" && Space(s[|s| - 1]) then TrimEnd(s[..|s| - 1]) else s
  }

  function Trimmed(s: string): string {
    TrimEnd(TrimStart(s))
  }

  ghost predicate Blank(s: string) {
    forall i :: 0 <= i < |s| ==> Space(s[i])
  }

  lemma {:induction false} TrimmedStart(s: string) returns (a: string)
    ensures Blank(a) && s == a + TrimStart(s) && (TrimStart(s) == "" || !Space(TrimStart(s)[0]))
  {
    if s != "" && Space(s[0]) {
      var b := TrimmedStart(s[1..]);
      a := [s[0]] + b;
    } else {
      a := "";
    }
  }

  lemma BlankMore(a: string, c: char)
    requires Blank(a) && Space(c)
    ensures Blank(a + [c])
  {}

  ghost predicate EndsSolid(s: string) {
    s == "" || !Space(s[|s| - 1])
  }

  lemma {:induction false} TrimmedEnd(s: string) returns (b: string)
    ensures Blank(b) && s == TrimEnd(s) + b && EndsSolid(TrimEnd(s))
  {
    if EndsSolid(s) {
      b := "";
    } else {
      var n := |s| - 1;
      var a := TrimmedEnd(s[..n]);
      BlankMore(a, s[n]);
      b := a + [s[n]];
      assert s == s[..n] + [s[n]];
    }
  }

  /** Trimming takes the white space off both ends, and nothing else. */
  lemma {:induction false} TrimmedIs(s: string)
    ensures var t := Trimmed(s);
      && (exists a, b :: Blank(a) && Blank(b) && s == a + (t + b))
      && (t != "" ==> !Space(t[0]) && !Space(t[|t| - 1]))
  {
    var a := TrimmedStart(s);
    var b := TrimmedEnd(TrimStart(s));
    assert s == a + (Trimmed(s) + b);
    assert Trimmed(s) != "" ==> Trimmed(s)[0] == TrimStart(s)[0];
  }

  function TrimAll(texts: seq<string>): (r: seq<string>)
    ensures |r| == |texts| && forall i :: 0 <= i < |r| ==> r[i] == Trimmed(texts[i])
  {
    if texts == [] then [] else [Trimmed(texts[0])] + TrimAll(texts[1..])
  }

  function ParsePrimitive(text: string, path: Path, parse: Parser, delim: char, split: bool): Outcome {
    if split then Traverse(TrimAll(Split(text, delim)), PrefixParser(parse, path))
    else match PrefixErrors(parse(text), path) case Left(e) => Left(e) case Right(v) => Right([v])
  }

  function PrefixParser(parse: Parser, path: Path): Parser {
    text => PrefixErrors(parse(text), path)
  }

  function LoadText(m: map<string, string>, path: Path, parse: Parser, split: bool, pathDelim: char,
      seqDelim: char): Outcome {
    var pathString := Join(path, pathDelim);
    if pathString in m then ParsePrimitive(m[pathString], path, parse, seqDelim, split)
    else Left(MissingData(path, NotInMap(pathString)))
  }

  /** A provider over the entries, listing children in any order but each of them once. */
  ghost predicate Serves(flat: Flat, entries: seq<Stored>, pathDelim: char, seqDelim: char) {
    && flat.patch == Empty
    && (forall p, parse, split ::
          flat.load(p, parse, split) == LoadText(Indexed(entries, pathDelim), p, parse, split, pathDelim, seqDelim))
    && (forall p :: Lists(flat.enumerateChildren(p), entries, p, pathDelim))
  }

  ghost predicate Lists(r: Either<ConfigError, seq<string>>, entries: seq<Stored>, p: Path, pathDelim: char) {
    && r.Right?
    && (forall i, j :: 0 <= i < j < |r.right| ==> r.right[i] != r.right[j])
    && (forall child :: child in r.right <==> HasChild(Indexed(entries, pathDelim), p, pathDelim, child))
  }

  lemma {:induction false} ParsedUnder(texts: seq<string>, parse: Parser, path: Path)
    ensures ErrorsUnder(Traverse(texts, PrefixParser(parse, path)), path)
  {
    if texts == [] {
    } else {
      if parse(texts[0]).Left? { PrefixedUnder(parse(texts[0]).left, path); }
      ParsedUnder(texts[1..], parse, path);
    }
  }

  lemma {:induction false} LoadsUnder(m: map<string, string>, path: Path, parse: Parser, split: bool, pathDelim: char,
      seqDelim: char)
    ensures var r := LoadText(m, path, parse, split, pathDelim, seqDelim);
      ErrorsUnder(r, path) && r != Right([]) && (r.Right? && !split ==> |r.right| == 1)
  {
    var s := Join(path, pathDelim);
    if s !in m {
      UnderOne(MissingData(path, NotInMap(s)), path);
    } else if split {
      ParsedUnder(TrimAll(Split(m[s], seqDelim)), parse, path);
    } else if parse(m[s]).Left? {
      PrefixedUnder(parse(m[s]).left, path);
    }
  }

  /** Such a provider meets what the loading lemmas ask for. */
  lemma {:induction false} MapsAreFaithful(flat: Flat, entries: seq<Stored>, pathDelim: char, seqDelim: char)
    requires Serves(flat, entries, pathDelim, seqDelim)
    ensures Faithful(flat) && SingleLoads(flat)
  {
    forall p, parse, split
      ensures ErrorsUnder(flat.load(p, parse, split), p) && flat.load(p, parse, split) != Right([])
      ensures flat.load(p, parse, split).Right? && !split ==> |flat.load(p, parse, split).right| == 1
    {
      LoadsUnder(Indexed(entries, pathDelim), p, parse, split, pathDelim, seqDelim);
    }
    forall p ensures ErrorsUnder(flat.enumerateChildren(p), p) {
      assert Lists(flat.enumerateChildren(p), entries, p, pathDelim);
    }
  }

  // ----- Providers that always split

  /** A provider that looks texts up in the map at the patched path and splits them, asked to or not. */
  ghost predicate Splits(flat: Flat, m: map<string, string>, pathDelim: char, seqDelim: char) {
    forall p, parse, split :: flat.load(p, parse, split) == LoadText(m, p, parse, true, pathDelim, seqDelim)
  }

  /** Nesting and unnesting, of a provider over a map or again of such a provider, splits. */
  lemma {:induction false} NestedSplits(flat: Flat, entries: seq<Stored>, pathDelim: char, seqDelim: char, name: string)
    requires var m := Indexed(entries, pathDelim);
      Serves(flat, entries, pathDelim, seqDelim) || Splits(flat, m, pathDelim, seqDelim)
    ensures var m := Indexed(entries, pathDelim);
      Splits(NestedIn(flat, name), m, pathDelim, seqDelim) && Splits(UnnestedIn(flat, name), m, pathDelim, seqDelim)
  {}

  /** The text that is found from the path, if the patch leads anywhere and there is one. */
  ghost function Found(flat: Flat, m: map<string, string>, pathDelim: char, path: Path): Option<string> {
    match Apply(path, flat.patch)
    case Left(_) => None
    case Right(p) => Lookup(m, Join(p, pathDelim))
  }

  ghost predicate Undelimited(flat: Flat, m: map<string, string>, pathDelim: char, seqDelim: char, path: Path) {
    var t := Found(flat, m, pathDelim, path);
    t.Some? ==> seqDelim !in t.value
  }

  ghost predicate AlwaysSingleAt(flat: Flat, path: Path) {
    forall parse :: SingleAt(flat, path, parse)
  }

  /** Loading a text through such a provider gives one value for every parser exactly when the text does not
      contain the delimiter. */
  lemma {:induction false} SingleWhereUndelimited(
      flat: Flat, m: map<string, string>, pathDelim: char, seqDelim: char, path: Path)
    requires Splits(flat, m, pathDelim, seqDelim)
    ensures AlwaysSingleAt(flat, path) <==> Undelimited(flat, m, pathDelim, seqDelim, path)
  {
    var t := Found(flat, m, pathDelim, path);
    if t.Some? {
      OnePieceIff(t.value, seqDelim);
      var parse: Parser := _ => Right(Undefined);
      var p := Apply(path, flat.patch).right;
      assert flat.load(p, parse, false) == LoadText(m, p, parse, true, pathDelim, seqDelim);
      AllParse(TrimAll(Split(t.value, seqDelim)), PrefixParser(parse, p));
      assert SingleAt(flat, path, parse) ==> |Split(t.value, seqDelim)| == 1;
      forall parse | seqDelim !in t.value ensures SingleAt(flat, path, parse) {
        assert flat.load(p, parse, false) == LoadText(m, p, parse, true, pathDelim, seqDelim);
      }
    } else {
      forall parse ensures SingleAt(flat, path, parse) {
        var q := Apply(path, flat.patch);
        if q.Right? {
          assert flat.load(q.right, parse, false) == LoadText(m, q.right, parse, true, pathDelim, seqDelim);
        }
      }
    }
  }

  lemma {:induction false} AllParse(texts: seq<string>, f: Parser)
    requires forall text :: f(text).Right?
    ensures Traverse(texts, f).Right?
  {
    if texts == [] {
    } else {
      AllParse(texts[1..], f);
    }
  }

  /** Under a nested or unnested provider every configuration gives the value exactly when no text that the
      patch leads to contains the sequence delimiter. */
  lemma {:induction false} SplittingGivesTheValueIff(
      flat: Flat, m: map<string, string>, pathDelim: char, seqDelim: char)
    requires Splits(flat, m, pathDelim, seqDelim)
    ensures (forall config :: GivesTheValue(flat, config)) <==>
      forall path :: Undelimited(flat, m, pathDelim, seqDelim, path)
  {
    LoadGivesTheValue(flat);
    AlwaysSingle(flat);
    forall path ensures AlwaysSingleAt(flat, path) <==> Undelimited(flat, m, pathDelim, seqDelim, path) {
      SingleWhereUndelimited(flat, m, pathDelim, seqDelim, path);
    }
  }

  lemma AlwaysSingle(flat: Flat)
    ensures SingleLoads(flat) <==> forall path :: AlwaysSingleAt(flat, path)
  {
    if SingleLoads(flat) {
      forall path, parse ensures SingleAt(flat, path, parse) {}
    } else {
      var path, parse :| !SingleAt(flat, path, parse);
      assert !AlwaysSingleAt(flat, path);
    }
  }

  /** Otherwise the user gets the first piece only, if all of them parse. */
  lemma {:induction false} SplittingLoadsFirst(
      flat: Flat, m: map<string, string>, pathDelim: char, seqDelim: char, path: Path, parse: Parser)
    requires Splits(flat, m, pathDelim, seqDelim) && Found(flat, m, pathDelim, path).Some?
    requires Load(flat, Along(path, Primitive(parse))).Right?
    ensures var pieces := Split(Found(flat, m, pathDelim, path).value, seqDelim);
      parse(Trimmed(pieces[0])) == Load(flat, Along(path, Primitive(parse)))
  {
    var c := Primitive(parse);
    LoopAlong(flat, [], path, c, false);
    assert [] + path == path;
    assert Loop(flat, path, c, false) == LoadPrimitive(flat, path, parse, false);
    var p := Apply(path, flat.patch).right;
    assert flat.load(p, parse, false) == LoadText(m, p, parse, true, pathDelim, seqDelim);
  }

  function NextSegments(entries: seq<Stored>, delim: char, path: Path): seq<string> {
    if entries == [] then []
    else
      var rest := NextSegments(entries[..|entries| - 1], delim, path);
      var keyPath := PathOf(entries[|entries| - 1].key, delim);
      if path <= keyPath && |keyPath| > |path| && keyPath[|path|] !in rest then rest + [keyPath[|path|]] else rest
  }

  lemma {:induction false} NextSegmentsOnce(entries: seq<Stored>, delim: char, path: Path)
    ensures Distinct(NextSegments(entries, delim, path))
  {
    if entries == [] {
    } else {
      NextSegmentsOnce(entries[..|entries| - 1], delim, path);
    }
  }

  ghost predicate Below(e: Stored, delim: char, path: Path) {
    path <= PathOf(e.key, delim)
  }

  ghost predicate StoredBelow(entries: seq<Stored>, delim: char, path: Path) {
    exists i :: 0 <= i < |entries| && Below(entries[i], delim, path)
  }

  lemma SomeLast<T>(s: seq<T>, p: T -> bool)
    requires s != []
    ensures var n := |s| - 1;
      (exists i :: 0 <= i < |s| && p(s[i])) <==> (exists i :: 0 <= i < n && p(s[..n][i])) || p(s[n])
  {
    var n := |s| - 1;
    forall i | 0 <= i < n ensures s[..n][i] == s[i] {}
    if i :| 0 <= i < n && p(s[..n][i]) { assert p(s[i]); }
    if i :| 0 <= i < |s| && p(s[i]) { if i < n { assert p(s[..n][i]); } }
  }

  lemma {:induction false} StoredBelowLast(entries: seq<Stored>, delim: char, path: Path)
    requires entries != []
    ensures StoredBelow(entries, delim, path) <==>
      StoredBelow(entries[..|entries| - 1], delim, path) || Below(entries[|entries| - 1], delim, path)
  {
    var p := e => Below(e, delim, path);
    SomeLast(entries, p);
    StoredIff(entries, delim, path, p);
    StoredIff(entries[..|entries| - 1], delim, path, p);
  }

  lemma {:induction false} StoredIff(entries: seq<Stored>, delim: char, path: Path, p: Stored -> bool)
    requires forall e :: p(e) == Below(e, delim, path)
    ensures StoredBelow(entries, delim, path) <==> exists i :: 0 <= i < |entries| && p(entries[i])
  {
    if i :| 0 <= i < |entries| && Below(entries[i], delim, path) { assert p(entries[i]); }
    if i :| 0 <= i < |entries| && p(entries[i]) { assert Below(entries[i], delim, path); }
  }

  lemma {:induction false} NextSegmentsAre(entries: seq<Stored>, delim: char, path: Path, child: string)
    ensures child in NextSegments(entries, delim, path) <==> StoredBelow(entries, delim, path + [child])
  {
    if entries == [] {
    } else {
      var n := |entries| - 1;
      NextSegmentsAre(entries[..n], delim, path, child);
      StoredBelowLast(entries, delim, path + [child]);
      ChildAt(PathOf(entries[n].key, delim), path, child);
    }
  }

  function FromMap(entries: seq<Stored>, pathDelim: char, seqDelim: char): Flat {
    Flat(Empty,
         (path: Path, parse: Parser, split: bool) =>
           LoadText(Indexed(entries, pathDelim), path, parse, split, pathDelim, seqDelim),
         (path: Path) => Right(NextSegments(entries, pathDelim, path)))
  }

  lemma {:induction false} FromMapServes(entries: seq<Stored>, pathDelim: char, seqDelim: char)
    requires Separates(pathDelim)
    ensures Serves(FromMap(entries, pathDelim, seqDelim), entries, pathDelim, seqDelim)
  {
    forall p ensures Lists(Right(NextSegments(entries, pathDelim, p)), entries, p, pathDelim) {
      NextSegmentsOnce(entries, pathDelim, p);
      forall child
        ensures child in NextSegments(entries, pathDelim, p) <==>
          HasChild(Indexed(entries, pathDelim), p, pathDelim, child)
      {
        NextSegmentsAre(entries, pathDelim, p, child);
        ChildrenAreNextSegments(entries, pathDelim, p, child);
      }
    }
  }

  // ----- What is loaded for a text

  lemma {:induction false} StoredTextLoads(
      entries: seq<Stored>, pathDelim: char, seqDelim: char, path: Path, parse: Parser, split: bool)
    requires Separates(pathDelim) && path != [] && Free(path, pathDelim)
    ensures Loop(FromMap(entries, pathDelim, seqDelim), path, Primitive(parse), split) ==
      match TextAt(entries, pathDelim, path)
      case None => Left(MissingData(path, NotInMap(Join(path, pathDelim))))
      case Some(text) => ParsePrimitive(text, path, parse, seqDelim, split)
  {
    var flat, m := FromMap(entries, pathDelim, seqDelim), Indexed(entries, pathDelim);
    LookupFindsPath(entries, pathDelim, path);
    LoadsUnder(m, path, parse, split, pathDelim, seqDelim);
    assert flat.load(path, parse, split) == LoadText(m, path, parse, split, pathDelim, seqDelim);
    assert Loop(flat, path, Primitive(parse), split) == LoadPrimitive(flat, path, parse, split);
  }

  /** A user who asks for a path gets what the parser makes of the very text stored last for it, an error of the
      parser being reported at the path, and is told that data is missing at the path when no text is stored. */
  lemma {:induction false} UserLoadsText(entries: seq<Stored>, pathDelim: char, seqDelim: char, path: Path,
      parse: Parser)
    requires Separates(pathDelim) && path != [] && Free(path, pathDelim)
    ensures var r := Load(FromMap(entries, pathDelim, seqDelim), Along(path, Primitive(parse)));
      match TextAt(entries, pathDelim, path)
      case None => r == Left(MissingData(path, NotInMap(Join(path, pathDelim))))
      case Some(text) => r == match parse(text) case Right(v) => Right(v) case Left(e) => Left(Prefixed(e, path))
  {
    var flat, c := FromMap(entries, pathDelim, seqDelim), Primitive(parse);
    LoopAlong(flat, [], path, c, false);
    assert [] + path == path;
    StoredTextLoads(entries, pathDelim, seqDelim, path, parse, false);
  }

  /** Where texts are split, the pieces between the delimiters are trimmed and parsed in order, up to the first
      that the parser rejects, whose error is reported at the path. */
  lemma {:induction false} PiecesLoad(
      entries: seq<Stored>, pathDelim: char, seqDelim: char, path: Path, parse: Parser, text: string)
    requires Separates(pathDelim) && path != [] && Free(path, pathDelim)
    requires TextAt(entries, pathDelim, path) == Some(text)
    ensures var r := Loop(FromMap(entries, pathDelim, seqDelim), path, Primitive(parse), true);
      var pieces, f := Split(text, seqDelim), (piece: string) => parse(Trimmed(piece));
      && (r.Right? <==> Accepts(pieces, f))
      && (r.Right? ==> AreImages(pieces, f, r.right))
      && (forall i: nat :: RejectsFirst(pieces, f, i) ==> r == Left(Prefixed(f(pieces[i]).left, path)))
  {
    StoredTextLoads(entries, pathDelim, seqDelim, path, parse, true);
    var pieces, f, g := Split(text, seqDelim), (piece: string) => parse(Trimmed(piece)), PrefixParser(parse, path);
    var trimmed := TrimAll(pieces);
    Traversed(trimmed, g);
    PiecesAccepted(pieces, parse, path);
    forall i: nat | RejectsFirst(pieces, f, i) ensures Traverse(trimmed, g) == Left(Prefixed(f(pieces[i]).left, path)) {
      forall j | 0 <= j < i ensures g(trimmed[j]).Right? { assert f(pieces[j]).Right?; }
      TraverseRejects(trimmed, g, i);
    }
  }

  lemma {:induction false} PiecesAccepted(pieces: seq<string>, parse: Parser, path: Path)
    ensures var f, g := (piece: string) => parse(Trimmed(piece)), PrefixParser(parse, path);
      && (Accepts(TrimAll(pieces), g) <==> Accepts(pieces, f))
      && forall vs :: AreImages(TrimAll(pieces), g, vs) ==> AreImages(pieces, f, vs)
  {
    var f, g := (piece: string) => parse(Trimmed(piece)), PrefixParser(parse, path);
    var trimmed := TrimAll(pieces);
    forall i | 0 <= i < |pieces|
      ensures g(trimmed[i]).Right? <==> f(pieces[i]).Right?
      ensures f(pieces[i]).Right? ==> g(trimmed[i]) == f(pieces[i])
    {
      assert g(trimmed[i]) == PrefixErrors(parse(Trimmed(pieces[i])), path);
    }
  }

  /** What a list of delimited pieces gives: a list of what the parser makes of them, in order, unless it rejects one
      of them, in which case the first rejection is reported at the path. */
  ghost predicate ParsesPieces(text: string, seqDelim: char, path: Path, parse: Parser, r: Either<ConfigError, Value>) {
    var pieces, f := Split(text, seqDelim), (piece: string) => parse(Trimmed(piece));
    && (r.Right? <==> Accepts(pieces, f))
    && (r.Right? ==> r.right.List? && AreImages(pieces, f, r.right.elements))
    && (forall i: nat :: RejectsFirst(pieces, f, i) ==> r == Left(Prefixed(f(pieces[i]).left, path)))
  }

  /** Where no index is below the path, a list holds what is loaded, split, from the path itself. */
  lemma {:induction false} ChildlessList(
      entries: seq<Stored>, pathDelim: char, seqDelim: char, path: Path, parse: Parser, split: bool)
    requires IndicesFrom(NextSegments(entries, pathDelim, path)) == []
    ensures var flat := FromMap(entries, pathDelim, seqDelim);
      Loop(flat, path, Sequence(Primitive(parse)), split) ==
        match Loop(flat, path, Primitive(parse), true)
        case Left(e) => Left(e)
        case Right(vs) => Right([List(vs)])
  {
    var flat := FromMap(entries, pathDelim, seqDelim);
    assert Children(flat, path) == Right((path, NextSegments(entries, pathDelim, path)));
  }

  /** A user who asks for a list at a path below which nothing is indexed gets the pieces of the text stored there. */
  lemma {:induction false} UserLoadsPieces(
      entries: seq<Stored>, pathDelim: char, seqDelim: char, path: Path, parse: Parser)
    requires Separates(pathDelim) && path != [] && Free(path, pathDelim)
    requires IndicesFrom(NextSegments(entries, pathDelim, path)) == []
    ensures var r := Load(FromMap(entries, pathDelim, seqDelim), Along(path, Sequence(Primitive(parse))));
      match TextAt(entries, pathDelim, path)
      case None => r == Left(MissingData(path, NotInMap(Join(path, pathDelim))))
      case Some(text) => ParsesPieces(text, seqDelim, path, parse, r)
  {
    var flat, c := FromMap(entries, pathDelim, seqDelim), Sequence(Primitive(parse));
    LoopAlong(flat, [], path, c, false);
    assert [] + path == path;
    ChildlessList(entries, pathDelim, seqDelim, path, parse, false);
    StoredTextLoads(entries, pathDelim, seqDelim, path, parse, true);
    var text := TextAt(entries, pathDelim, path);
    if text.Some? { PiecesLoad(entries, pathDelim, seqDelim, path, parse, text.value); }
  }
}
