/** Tables: on what their records depend, and where they look their keys up. */
module ConfigTables {
  import opened Options
  import opened Paths
  import opened ConfigErrors
  import opened PathPatches
  import opened ConfigProviders
  import opened ConfigLoading

  // ----- Loading the rows

  /** The values under one key, none when they do not load. */
  ghost function Row(flat: Flat, prefix: Path, c: Config, split: bool, key: string): seq<Value> {
    match Loop(flat, prefix + [key], c, split) case Left(_) => [] case Right(vs) => vs
  }

  ghost predicate RowLoads(flat: Flat, prefix: Path, c: Config, split: bool, key: string) {
    Loop(flat, prefix + [key], c, split).Right?
  }

  ghost predicate RowsLoad(flat: Flat, prefix: Path, c: Config, split: bool, keys: seq<string>) {
    forall i :: 0 <= i < |keys| ==> RowLoads(flat, prefix, c, split, keys[i])
  }

  ghost function Rows(flat: Flat, prefix: Path, c: Config, split: bool, keys: seq<string>): (r: seq<seq<Value>>)
    ensures |r| == |keys| && forall i :: 0 <= i < |r| ==> r[i] == Row(flat, prefix, c, split, keys[i])
  {
    if keys == [] then [] else [Row(flat, prefix, c, split, keys[0])] + Rows(flat, prefix, c, split, keys[1..])
  }

  /** The error of the first key, in the order of the listing, that does not load. */
  ghost function FirstError(flat: Flat, prefix: Path, c: Config, split: bool, keys: seq<string>): Option<ConfigError> {
    if keys == [] then None
    else match Loop(flat, prefix + [keys[0]], c, split)
      case Left(e) => Some(e)
      case Right(_) => FirstError(flat, prefix, c, split, keys[1..])
  }

  lemma {:induction false} RowsLoaded(flat: Flat, prefix: Path, c: Config, split: bool, keys: seq<string>)
    ensures FirstError(flat, prefix, c, split, keys) == None <==> RowsLoad(flat, prefix, c, split, keys)
    ensures LoopEach(flat, KeyPaths(prefix, keys), c, split) ==
      match FirstError(flat, prefix, c, split, keys)
      case Some(e) => Left(e)
      case None => Right(Rows(flat, prefix, c, split, keys))
  {
    if keys == [] {
    } else {
      RowsLoaded(flat, prefix, c, split, keys[1..]);
      RowsLoadFirst(flat, prefix, c, split, keys);
      assert KeyPaths(prefix, keys)[1..] == KeyPaths(prefix, keys[1..]);
    }
  }

  lemma {:induction false} RowsLoadFirst(flat: Flat, prefix: Path, c: Config, split: bool, keys: seq<string>)
    requires keys != []
    ensures RowsLoad(flat, prefix, c, split, keys) <==>
      RowLoads(flat, prefix, c, split, keys[0]) && RowsLoad(flat, prefix, c, split, keys[1..])
  {
    if RowsLoad(flat, prefix, c, split, keys) {
      forall i | 0 <= i < |keys[1..]| ensures RowLoads(flat, prefix, c, split, keys[1..][i]) {
        assert keys[1..][i] == keys[i + 1];
      }
    } else if RowLoads(flat, prefix, c, split, keys[0]) {
      var i :| 0 <= i < |keys| && !RowLoads(flat, prefix, c, split, keys[i]);
      assert keys[1..][i - 1] == keys[i];
    }
  }

  // ----- The records

  /** One value under each key, as a record; rows that are too short have none, and give an undefined one. */
  ghost function Fields(flat: Flat, prefix: Path, c: Config, split: bool, keys: set<string>, column: nat): map<string,
      Value> {
    map k | k in keys :: At(Row(flat, prefix, c, split, k), column)
  }

  ghost function KeysOf(keys: seq<string>): set<string> {
    set k | k in keys
  }

  ghost function FieldsOver(row: string -> seq<Value>, keys: set<string>, column: nat): map<string, Value> {
    map k | k in keys :: At(row(k), column)
  }

  lemma {:induction false} ColumnOver(keys: seq<string>, rows: seq<seq<Value>>, row: string -> seq<Value>, column: nat)
    requires |rows| == |keys| && forall i :: 0 <= i < |keys| ==> rows[i] == row(keys[i])
    ensures Column(keys, rows, column) == FieldsOver(row, KeysOf(keys), column)
    decreases |keys|
  {
    if keys == [] {
      assert KeysOf(keys) == {};
    } else {
      var n := |keys| - 1;
      ColumnOver(keys[..n], rows[..n], row, column);
      KeysOfLast(keys);
    }
  }

  lemma {:induction false} ColumnIsFields(flat: Flat, prefix: Path, c: Config, split: bool, keys: seq<string>,
      column: nat)
    ensures Column(keys, Rows(flat, prefix, c, split, keys), column) ==
      Fields(flat, prefix, c, split, KeysOf(keys), column)
  {
    var row := k => Row(flat, prefix, c, split, k);
    ColumnOver(keys, Rows(flat, prefix, c, split, keys), row, column);
    assert FieldsOver(row, KeysOf(keys), column) == Fields(flat, prefix, c, split, KeysOf(keys), column);
  }

  lemma KeysOfLast(keys: seq<string>)
    requires keys != []
    ensures KeysOf(keys) == KeysOf(keys[..|keys| - 1]) + {keys[|keys| - 1]}
  {
    assert keys == keys[..|keys| - 1] + [keys[|keys| - 1]];
  }

  /** How many records a table has. */
  ghost function Width(flat: Flat, prefix: Path, c: Config, split: bool, keys: seq<string>): nat {
    if keys == [] then 1 else |Row(flat, prefix, c, split, keys[0])|
  }

  ghost predicate AreRecords(vs: seq<Value>, flat: Flat, prefix: Path, c: Config, split: bool, keys: seq<string>) {
    && |vs| == Width(flat, prefix, c, split, keys)
    && forall i :: 0 <= i < |vs| ==> vs[i] == Record(Fields(flat, prefix, c, split, KeysOf(keys), i))
  }

  lemma {:induction false} TransposedRecords(flat: Flat, prefix: Path, c: Config, split: bool, keys: seq<string>)
    requires keys != []
    ensures AreRecords(Transposed(keys, Rows(flat, prefix, c, split, keys)), flat, prefix, c, split, keys)
  {
    var vs := Transposed(keys, Rows(flat, prefix, c, split, keys));
    forall i | 0 <= i < |vs| ensures vs[i] == Record(Fields(flat, prefix, c, split, KeysOf(keys), i)) {
      ColumnIsFields(flat, prefix, c, split, keys, i);
    }
  }

  lemma {:induction false} NoRecords(flat: Flat, prefix: Path, c: Config, split: bool)
    ensures AreRecords([Record(map[])], flat, prefix, c, split, [])
  {
    assert Fields(flat, prefix, c, split, KeysOf([]), 0) == map[];
  }

  /** A table loads exactly when all its rows do, and fails with the first error of the listing. It has
      as many records as the first row listed has values; its records name the keys in no order. The rows
      are loaded from the patched path `p`, not from the prefix. */
  lemma {:induction false} TableOutcome(flat: Flat, prefix: Path, p: Path, c: Config, split: bool, keys: seq<string>)
    requires Children(flat, prefix) == Right((p, keys))
    ensures var r := Loop(flat, prefix, Table(c), split);
      match FirstError(flat, p, c, split, keys)
      case Some(e) => r == Left(e) && !RowsLoad(flat, p, c, split, keys)
      case None => r.Right? && RowsLoad(flat, p, c, split, keys) && AreRecords(r.right, flat, p, c, split, keys)
  {
    RowsLoaded(flat, p, c, split, keys);
    if keys == [] {
      NoRecords(flat, p, c, split);
    } else {
      TransposedRecords(flat, p, c, split, keys);
    }
  }

  /** The first key, in the order of the listing, whose row does not load. */
  ghost function FirstFailing(flat: Flat, prefix: Path, c: Config, split: bool, keys: seq<string>): Option<string> {
    if keys == [] then None
    else if RowLoads(flat, prefix, c, split, keys[0]) then FirstFailing(flat, prefix, c, split, keys[1..])
    else Some(keys[0])
  }

  lemma {:induction false} FailingErrs(flat: Flat, prefix: Path, c: Config, split: bool, keys: seq<string>)
    ensures match FirstFailing(flat, prefix, c, split, keys)
      case None => FirstError(flat, prefix, c, split, keys) == None
      case Some(k) =>
        && !RowLoads(flat, prefix, c, split, k)
        && FirstError(flat, prefix, c, split, keys) == Some(Loop(flat, prefix + [k], c, split).left)
  {
    if keys == [] {
    } else if RowLoads(flat, prefix, c, split, keys[0]) {
      FailingErrs(flat, prefix, c, split, keys[1..]);
    }
  }

  lemma {:induction false} SomeLeaf(e: ConfigError)
    ensures Leaves(e) != []
  {
    if e.Binary() { SomeLeaf(e.left); }
  }

  /** An error tells below which key it arose. */
  lemma {:induction false} ErrorTellsKey(e: ConfigError, prefix: Path, k: string, l: string)
    requires Under(e, prefix + [k]) && Under(e, prefix + [l])
    ensures k == l
  {
    SomeLeaf(e);
    var path := Leaves(e)[0].path;
    assert prefix + [k] <= path && prefix + [l] <= path;
    assert path[|prefix|] == (prefix + [k])[|prefix|] == (prefix + [l])[|prefix|];
  }

  // ----- Two listings of the same keys

  /** Both fail, or both load the same values. */
  ghost predicate SameSuccess(a: Outcome, b: Outcome) {
    (a.Right? <==> b.Right?) && (a.Right? ==> a == b)
  }

  ghost predicate SimilarRows(f: Flat, g: Flat, prefix: Path, c: Config, split: bool) {
    forall key :: SameSuccess(Loop(f, prefix + [key], c, split), Loop(g, prefix + [key], c, split))
  }

  lemma {:induction false} RowsAlike(f: Flat, g: Flat, prefix: Path, c: Config, split: bool)
    requires Agree(f, g, prefix) && !HasTable(c)
    ensures SimilarRows(f, g, prefix, c, split)
  {
    forall key ensures SameSuccess(Loop(f, prefix + [key], c, split), Loop(g, prefix + [key], c, split)) {
      AlikeBelow(f, g, prefix, c, prefix + [key], c);
      LoadingIsLocal(f, g, prefix + [key], c, split);
    }
  }

  lemma {:induction false} SameMembers<T>(a: seq<T>, b: seq<T>)
    requires multiset(a) == multiset(b)
    ensures forall x :: x in a <==> x in b
    ensures |a| == |b|
  {
    forall x ensures x in a <==> x in b {
      assert x in a <==> x in multiset(a);
      assert x in b <==> x in multiset(b);
    }
    assert |multiset(a)| == |a| && |multiset(b)| == |b|;
  }

  lemma {:induction false} SameRowsLoad(f: Flat, g: Flat, prefix: Path, c: Config, split: bool, a: seq<string>,
      b: seq<string>)
    requires SimilarRows(f, g, prefix, c, split) && multiset(a) == multiset(b)
    requires RowsLoad(f, prefix, c, split, a)
    ensures RowsLoad(g, prefix, c, split, b)
  {
    SameMembers(a, b);
    forall i | 0 <= i < |b| ensures RowLoads(g, prefix, c, split, b[i]) {
      assert b[i] in b;
      var j :| 0 <= j < |a| && a[j] == b[i];
      assert RowLoads(f, prefix, c, split, a[j]);
      assert SameSuccess(Loop(f, prefix + [b[i]], c, split), Loop(g, prefix + [b[i]], c, split));
    }
  }

  lemma {:induction false} SameFields(f: Flat, g: Flat, prefix: Path, c: Config, split: bool, keys: set<string>,
      column: nat)
    requires SimilarRows(f, g, prefix, c, split)
    ensures Fields(f, prefix, c, split, keys, column) == Fields(g, prefix, c, split, keys, column)
  {
    forall k ensures Row(f, prefix, c, split, k) == Row(g, prefix, c, split, k) {
      assert SameSuccess(Loop(f, prefix + [k], c, split), Loop(g, prefix + [k], c, split));
    }
  }

  lemma {:induction false} SameRecordsIff(f: Flat, g: Flat, prefix: Path, c: Config, split: bool,
                                          a: seq<string>, b: seq<string>, vs: seq<Value>, ws: seq<Value>)
    requires SimilarRows(f, g, prefix, c, split) && multiset(a) == multiset(b)
    requires AreRecords(vs, f, prefix, c, split, a) && AreRecords(ws, g, prefix, c, split, b)
    ensures vs == ws <==> Width(f, prefix, c, split, a) == Width(g, prefix, c, split, b)
  {
    SameMembers(a, b);
    assert KeysOf(a) == KeysOf(b);
    if |vs| == |ws| {
      forall i | 0 <= i < |vs| ensures vs[i] == ws[i] {
        SameFields(f, g, prefix, c, split, KeysOf(a), i);
      }
    }
  }

  /** Two listings of the same keys, with rows that load alike: the table fails from both or loads from
      both, and then alike exactly when the first rows listed are equally long. */
  lemma {:induction false} TablesAlikeIff(f: Flat, g: Flat, prefix: Path, c: Config, split: bool, a: seq<string>,
      b: seq<string>, p: Path)
    requires Children(f, prefix) == Right((p, a)) && Children(g, prefix) == Right((p, b))
    requires SimilarRows(f, g, p, c, split) && multiset(a) == multiset(b)
    ensures var r, q := Loop(f, prefix, Table(c), split), Loop(g, prefix, Table(c), split);
      && (r.Right? <==> q.Right?)
      && (r.Right? ==> (r == q <==> Width(f, p, c, split, a) == Width(g, p, c, split, b)))
  {
    TableOutcome(f, prefix, p, c, split, a);
    TableOutcome(g, prefix, p, c, split, b);
    SimilarBack(f, g, p, c, split);
    if RowsLoad(f, p, c, split, a) { SameRowsLoad(f, g, p, c, split, a, b); }
    if RowsLoad(g, p, c, split, b) { SameRowsLoad(g, f, p, c, split, b, a); }
    var r, q := Loop(f, prefix, Table(c), split), Loop(g, prefix, Table(c), split);
    if r.Right? { SameRecordsIff(f, g, p, c, split, a, b, r.right, q.right); }
  }

  lemma SimilarBack(f: Flat, g: Flat, prefix: Path, c: Config, split: bool)
    requires SimilarRows(f, g, prefix, c, split)
    ensures SimilarRows(g, f, prefix, c, split)
  {
    forall key ensures SameSuccess(Loop(g, prefix + [key], c, split), Loop(f, prefix + [key], c, split)) {
      assert SameSuccess(Loop(f, prefix + [key], c, split), Loop(g, prefix + [key], c, split));
    }
  }

  /** Rows that fail in both listings fail alike, and in faithful providers no two of them do. */
  lemma {:induction false} FailAlikeIff(f: Flat, g: Flat, prefix: Path, c: Config, split: bool, k: string, l: string)
    requires Agree(f, g, prefix) && !HasTable(c)
    requires !RowLoads(f, prefix, c, split, k) && !RowLoads(g, prefix, c, split, l)
    ensures var r, q := Loop(f, prefix + [k], c, split), Loop(g, prefix + [l], c, split);
      (k == l ==> r == q) && (Faithful(f) && Faithful(g) && r == q ==> k == l)
  {
    var r, q := Loop(f, prefix + [k], c, split), Loop(g, prefix + [l], c, split);
    AlikeBelow(f, g, prefix, c, prefix + [k], c);
    LoadingIsLocal(f, g, prefix + [k], c, split);
    if Faithful(f) && Faithful(g) && r == q {
      ErrorsStayBelowThePrefix(f, prefix + [k], c, split);
      ErrorsStayBelowThePrefix(g, prefix + [l], c, split);
      ErrorTellsKey(r.left, prefix, k, l);
    }
  }

  /** Exactly when a table of table-free rows does not depend on the order of the listing. Whether it loads
      never does. It loads alike when the first rows listed are equally long, and fails alike, from
      providers that report their errors where they arise, when one key is the first to fail in both. */
  lemma {:induction false} TableOrderIff(f: Flat, g: Flat, prefix: Path, c: Config, split: bool, a: seq<string>,
      b: seq<string>)
    requires Agree(f, g, prefix) && !HasTable(c)
    requires f.enumerateChildren(prefix) == Right(a) && g.enumerateChildren(prefix) == Right(b)
    ensures var r, q := Loop(f, prefix, Table(c), split), Loop(g, prefix, Table(c), split);
      && (r.Right? <==> q.Right?)
      && (r.Right? ==> (r == q <==> Width(f, prefix, c, split, a) == Width(g, prefix, c, split, b)))
      && var k, l := FirstFailing(f, prefix, c, split, a), FirstFailing(g, prefix, c, split, b);
         && (r.Left? && k == l ==> r == q)
         && (r.Left? && Faithful(f) && Faithful(g) ==> (r == q <==> k == l))
  {
    assert Permuted(f.enumerateChildren(prefix), g.enumerateChildren(prefix));
    RowsAlike(f, g, prefix, c, split);
    TablesAlikeIff(f, g, prefix, c, split, a, b, prefix);
    TableOutcome(f, prefix, prefix, c, split, a);
    TableOutcome(g, prefix, prefix, c, split, b);
    FailingErrs(f, prefix, c, split, a);
    FailingErrs(g, prefix, c, split, b);
    if Loop(f, prefix, Table(c), split).Left? {
      var k, l := FirstFailing(f, prefix, c, split, a).value, FirstFailing(g, prefix, c, split, b).value;
      FailAlikeIff(f, g, prefix, c, split, k, l);
    }
  }

  // ----- Configurations with tables, outside sequences

  /** The fallback is tried after every error, or after none. */
  ghost predicate IgnoresError(condition: ConfigError -> bool) {
    forall e, d :: condition(e) == condition(d)
  }

  /** Tables occur neither in sequences nor where their error decides about a fallback. */
  ghost predicate OrderFree(config: Config) {
    match config
    case Table(c) => OrderFree(c)
    case Sequence(c) => !HasTable(c)
    case Fallback(first, second, condition) =>
      (!HasTable(first) || (OrderFree(first) && IgnoresError(condition))) && OrderFree(second)
    case Described(c) => OrderFree(c)
    case Lazy(c) => OrderFree(c)
    case Nested(_, c) => OrderFree(c)
    case MapOrFail(c, _) => OrderFree(c)
    case Zipped(c, d, _) => OrderFree(c) && OrderFree(d)
    case _ => true
  }

  /** Where the provider loads single values such configurations load the same from every listing, or
      fail from every listing. */
  lemma {:induction false} LoadsWhateverTheOrder(f: Flat, g: Flat, prefix: Path, config: Config)
    requires Agree(f, g, prefix) && SingleLoads(f) && SingleLoads(g) && OrderFree(config)
    ensures SameSuccess(Loop(f, prefix, config, false), Loop(g, prefix, config, false))
    decreases config
  {
    match config
    case Constant(_) =>
    case Fail(_) =>
    case Primitive(_) => LoadingIsLocal(f, g, prefix, config, false);
    case Sequence(_) => LoadingIsLocal(f, g, prefix, config, false);
    case Described(c) => LoadsWhateverTheOrder(f, g, prefix, c);
    case Lazy(c) => LoadsWhateverTheOrder(f, g, prefix, c);
    case Fallback(first, second, condition) =>
      if HasTable(first) {
        LoadsWhateverTheOrder(f, g, prefix, first);
        var a, b := Loop(f, prefix, first, false), Loop(g, prefix, first, false);
        if a.Left? { assert condition(a.left) == condition(b.left); }
      } else {
        LoadingIsLocal(f, g, prefix, first, false);
      }
      LoadsWhateverTheOrder(f, g, prefix, second);
    case MapOrFail(original, _) => LoadsWhateverTheOrder(f, g, prefix, original);
    case Nested(name, c) =>
      AgreeBelow(f, g, prefix, prefix + [name]);
      LoadsWhateverTheOrder(f, g, prefix + [name], c);
    case Table(c) =>
      forall key ensures SameSuccess(Loop(f, prefix + [key], c, false), Loop(g, prefix + [key], c, false)) {
        AgreeBelow(f, g, prefix, prefix + [key]);
        LoadsWhateverTheOrder(f, g, prefix + [key], c);
      }
      SingleRowTables(f, g, prefix, c);
    case Zipped(l, r, _) =>
      LoadsWhateverTheOrder(f, g, prefix, l);
      LoadsWhateverTheOrder(f, g, prefix, r);
  }

  lemma AgreeBelow(f: Flat, g: Flat, prefix: Path, longer: Path)
    requires Agree(f, g, prefix) && prefix <= longer
    ensures Agree(f, g, longer)
  {}

  lemma {:induction false} SingleRowTables(f: Flat, g: Flat, prefix: Path, c: Config)
    requires Agree(f, g, prefix) && SingleLoads(f) && SingleLoads(g) && SimilarRows(f, g, prefix, c, false)
    ensures SameSuccess(Loop(f, prefix, Table(c), false), Loop(g, prefix, Table(c), false))
  {
    assert Permuted(f.enumerateChildren(prefix), g.enumerateChildren(prefix));
    if f.enumerateChildren(prefix).Right? {
      TablesAlikeIff(f, g, prefix, c, false,
                     f.enumerateChildren(prefix).right, g.enumerateChildren(prefix).right, prefix);
      OneValueOutsideSequences(f, prefix, Table(c));
      OneValueOutsideSequences(g, prefix, Table(c));
      TableOutcome(f, prefix, prefix, c, false, f.enumerateChildren(prefix).right);
      TableOutcome(g, prefix, prefix, c, false, g.enumerateChildren(prefix).right);
    }
  }

  // ----- Listings that make a difference

  function Ragged(keys: seq<string>, v: Value): Flat {
    Flat(Empty, (p: Path, _, _) => if p == ["a"] then Right([v]) else Right([v, v]), _ => Right(keys))
  }

  /** With rows of different lengths the number of records follows the row that is listed first. */
  lemma {:induction false} TableDependsOnOrder(v: Value, parse: Parser)
    ensures var t := Table(Primitive(parse));
      && Loop(Ragged(["a", "b"], v), [], t, true).Right? && |Loop(Ragged(["a", "b"], v), [], t, true).right| == 1
      && Loop(Ragged(["b", "a"], v), [], t, true).Right? && |Loop(Ragged(["b", "a"], v), [], t, true).right| == 2
  {
    RaggedTable(["a", "b"], v, parse);
    RaggedTable(["b", "a"], v, parse);
    assert [] + ["a"] == ["a"] && [] + ["b"] == ["b"];
  }

  lemma {:induction false} RaggedTable(keys: seq<string>, v: Value, parse: Parser)
    requires keys != []
    ensures var r := Loop(Ragged(keys, v), [], Table(Primitive(parse)), true);
      r.Right? && |r.right| == |Row(Ragged(keys, v), [], Primitive(parse), true, keys[0])|
  {
    var f, c := Ragged(keys, v), Primitive(parse);
    forall i | 0 <= i < |keys| ensures RowLoads(f, [], c, true, keys[i]) {}
    TableOutcome(f, [], [], c, true, keys);
  }

  function HalfMissing(keys: seq<string>): Flat {
    Flat(Empty,
         (p: Path, _, _) => Left(if p == ["a"] then MissingData(p, NoValue("a")) else InvalidData(p, NoValue("b"))),
         _ => Right(keys))
  }

  /** No row loads; the default is used if the key whose data is missing is listed first. */
  lemma {:induction false} DefaultDependsOnOrder(def: Value, parse: Parser)
    ensures var t := WithDefault(Table(Primitive(parse)), def);
      && Loop(HalfMissing(["a", "b"]), [], t, false) == Right([def])
      && Loop(HalfMissing(["b", "a"]), [], t, false).Left?
  {
    var c := Primitive(parse);
    assert [] + ["a"] == ["a"] && [] + ["b"] == ["b"];
    FirstRowFails(["a", "b"], parse);
    FirstRowFails(["b", "a"], parse);
    var e := InvalidData(["b"], NoValue("b"));
    assert Leaves(e)[0] == e;
    DefaultOutcome(HalfMissing(["a", "b"]), [], Table(c), def, false);
    DefaultOutcome(HalfMissing(["b", "a"]), [], Table(c), def, false);
  }

  lemma {:induction false} FirstRowFails(keys: seq<string>, parse: Parser)
    requires keys != []
    ensures var p: Path := [] + [keys[0]];
      Loop(HalfMissing(keys), [], Table(Primitive(parse)), false) ==
        Left(if p == ["a"] then MissingData(p, NoValue("a")) else InvalidData(p, NoValue("b")))
  {
    TableOutcome(HalfMissing(keys), [], [], Primitive(parse), false, keys);
  }

  // ----- Where a patched provider is asked

  /** The provider answers a direct load from `path` and a load by way of `other` alike. */
  ghost predicate ReadAlike(flat: Flat, path: Path, other: Path, parse: Parser, split: bool) {
    LoadPrimitive(flat, path, parse, split) == LoadPrimitive(flat, other, parse, split)
  }

  /** Echoes the path it is asked for. */
  function Echo(patch: PathPatch, children: Path -> Either<ConfigError, seq<string>>): Flat {
    Flat(patch, (p: Path, _, _) => Left(MissingData(p, NoValue(""))), children)
  }

  /** Loads one value from everywhere. */
  function Everywhere(patch: PathPatch, children: Path -> Either<ConfigError, seq<string>>): Flat {
    Flat(patch, (_, _, _) => Right([Undefined]), children)
  }

  /** Two providers tell any two paths apart that the patch does not identify. */
  lemma {:induction false} ToldApart(patch: PathPatch, children: Path -> Either<ConfigError, seq<string>>,
                                     path: Path, other: Path, parse: Parser, split: bool)
    requires Apply(path, patch) != Apply(other, patch)
    ensures !ReadAlike(Echo(patch, children), path, other, parse, split) ||
      !ReadAlike(Everywhere(patch, children), path, other, parse, split)
  {
    if Apply(path, patch).Right? && Apply(other, patch).Right? {
      assert !ReadAlike(Echo(patch, children), path, other, parse, split);
    }
  }

  /** A listing with the one key at the one path. */
  function OneChild(p: Path, key: string): Path -> Either<ConfigError, seq<string>> {
    q => if q == p then Right([key]) else Right([])
  }

  /** A record with the one field for every value. */
  function AsRecords(key: string, r: Outcome): Outcome {
    match r
    case Left(e) => Left(e)
    case Right(vs) => Right(seq(|vs|, i requires 0 <= i < |vs| => Record(map[key := vs[i]])))
  }

  function AsList(r: Outcome): Outcome {
    match r case Left(e) => Left(e) case Right(vs) => Right([List(vs)])
  }

  lemma {:induction false} AsRecordsInjective(key: string, r: Outcome, q: Outcome)
    ensures AsRecords(key, r) == AsRecords(key, q) <==> r == q
  {
    if r.Right? && q.Right? && AsRecords(key, r) == AsRecords(key, q) {
      var rs, qs := AsRecords(key, r).right, AsRecords(key, q).right;
      assert |rs| == |r.right| && |qs| == |q.right| && rs == qs;
      forall i | 0 <= i < |rs| ensures r.right[i] == q.right[i] {
        assert rs[i] == Record(map[key := r.right[i]]) && qs[i] == Record(map[key := q.right[i]]);
        assert map[key := r.right[i]][key] == map[key := q.right[i]][key];
      }
      assert r.right == q.right;
    }
  }

  /** The table with the keys and their rows. */
  ghost function Tabled(keys: seq<string>, rows: Either<ConfigError, seq<seq<Value>>>): Outcome
    requires rows.Right? ==> |rows.right| == |keys|
  {
    match rows
    case Left(e) => Left(e)
    case Right(rs) => if rs == [] then Right([Record(map[])]) else Right(Transposed(keys, rs))
  }

  lemma {:induction false} TabledOne(key: string, r: Outcome)
    ensures Tabled([key], match r case Left(e) => Left(e) case Right(vs) => Right([vs])) == AsRecords(key, r)
  {
    if r.Right? {
      forall i | 0 <= i < |r.right| ensures Column([key], [r.right], i) == map[key := r.right[i]] {
        assert [key][..0] == [] && [r.right][..0] == [];
        assert Column([], [], i) == map[];
      }
      assert Transposed([key], [r.right]) == AsRecords(key, r).right;
    }
  }

  /** What loading each key by its name gives. */
  ghost function RowsByName(flat: Flat, prefix: Path, c: Config, split: bool, keys: seq<string>)
      : (r: Either<ConfigError, seq<seq<Value>>>)
    ensures r.Right? ==> |r.right| == |keys|
  {
    if keys == [] then Right([])
    else match Loop(flat, prefix, Config.Nested(keys[0], c), split)
      case Left(e) => Left(e)
      case Right(vs) =>
        match RowsByName(flat, prefix, c, split, keys[1..])
        case Left(e) => Left(e)
        case Right(rest) => Right([vs] + rest)
  }

  /** A table loads its rows at the patched prefix, which is patched once more. */
  lemma TableLoadsRows(flat: Flat, prefix: Path, p: Path, keys: seq<string>, c: Config, split: bool)
    requires Children(flat, prefix) == Right((p, keys))
    ensures Loop(flat, prefix, Table(c), split) == Tabled(keys, LoopEach(flat, KeyPaths(p, keys), c, split))
  {}

  lemma {:induction false} OneKeyTable(flat: Flat, prefix: Path, p: Path, key: string, c: Config, split: bool)
    requires Children(flat, prefix) == Right((p, [key]))
    ensures Loop(flat, prefix, Table(c), split) == AsRecords(key, Loop(flat, p + [key], c, split))
  {
    TableLoadsRows(flat, prefix, p, [key], c, split);
    assert KeyPaths(p, [key]) == [p + [key]];
    OneOf(flat, p + [key], c, split);
    TabledOne(key, Loop(flat, p + [key], c, split));
  }

  lemma {:induction false} OneOf(flat: Flat, path: Path, c: Config, split: bool)
    ensures LoopEach(flat, [path], c, split) ==
      match Loop(flat, path, c, split) case Left(e) => Left(e) case Right(vs) => Right([vs])
  {
    assert [path][1..] == [];
    assert LoopEach(flat, [], c, split) == Right([]);
    if Loop(flat, path, c, split).Right? {
      assert [Loop(flat, path, c, split).right] + [] == [Loop(flat, path, c, split).right];
    }
  }

  /** Under every provider with the patch and every listing of keys among `names`, a table of primitives is
      the table of what loading each key by its name gives. */
  ghost predicate TableReadsByName(patch: PathPatch, prefix: Path, p: Path, names: iset<string>, parse: Parser,
      split: bool) {
    forall flat: Flat, keys | flat.patch == patch && flat.enumerateChildren(p) == Right(keys) && Among(keys, names) ::
      Loop(flat, prefix, Table(Primitive(parse)), split) ==
        Tabled(keys, RowsByName(flat, prefix, Primitive(parse), split, keys))
  }

  ghost predicate Among(keys: seq<string>, names: iset<string>) {
    forall k :: k in keys ==> k in names
  }

  lemma {:induction false} RowsRead(flat: Flat, prefix: Path, p: Path, keys: seq<string>, parse: Parser, split: bool)
    requires forall k :: k in keys ==> Apply(p + [k], flat.patch) == Apply(prefix + [k], flat.patch)
    ensures LoopEach(flat, KeyPaths(p, keys), Primitive(parse), split) ==
      RowsByName(flat, prefix, Primitive(parse), split, keys)
  {
    if keys == [] {
    } else {
      var k, rest := keys[0], keys[1..];
      assert k in keys;
      RowsRead(flat, prefix, p, rest, parse, split);
      assert KeyPaths(p, keys)[1..] == KeyPaths(p, rest);
      assert Loop(flat, p + [k], Primitive(parse), split) ==
        Loop(flat, prefix, Config.Nested(k, Primitive(parse)), split);
    }
  }

  lemma {:induction false} OneByName(flat: Flat, prefix: Path, key: string, parse: Parser, split: bool)
    ensures Tabled([key], RowsByName(flat, prefix, Primitive(parse), split, [key])) ==
      AsRecords(key, LoadPrimitive(flat, prefix + [key], parse, split))
  {
    var r := Loop(flat, prefix, Config.Nested(key, Primitive(parse)), split);
    assert r == Loop(flat, prefix + [key], Primitive(parse), split);
    assert r == LoadPrimitive(flat, prefix + [key], parse, split);
    assert RowsByName(flat, prefix, Primitive(parse), split, [key][1..]) == Right([]);
    if r.Right? { assert [r.right] + [] == [r.right]; }
    TabledOne(key, r);
  }

  lemma {:induction false} OneKeyReadAlike(flat: Flat, prefix: Path, p: Path, key: string, parse: Parser, split: bool)
    requires Apply(prefix, flat.patch) == Right(p) && flat.enumerateChildren(p) == Right([key])
    ensures (Loop(flat, prefix, Table(Primitive(parse)), split) ==
              Tabled([key], RowsByName(flat, prefix, Primitive(parse), split, [key]))) <==>
            ReadAlike(flat, p + [key], prefix + [key], parse, split)
  {
    OneKeyTable(flat, prefix, p, key, Primitive(parse), split);
    OneByName(flat, prefix, key, parse, split);
    AsRecordsInjective(key, LoadPrimitive(flat, p + [key], parse, split),
                       LoadPrimitive(flat, prefix + [key], parse, split));
  }

  /** A table reads the keys where loads by name read them, under every provider with the patch and every
      listing, exactly when patching the already patched paths changes nothing about the results. */
  lemma {:induction false} TableReadsByNameIff(patch: PathPatch, prefix: Path, p: Path, names: iset<string>,
      parse: Parser, split: bool)
    requires Apply(prefix, patch) == Right(p)
    ensures TableReadsByName(patch, prefix, p, names, parse, split) <==>
      forall k :: k in names ==> Apply(p + [k], patch) == Apply(prefix + [k], patch)
  {
    if forall k :: k in names ==> Apply(p + [k], patch) == Apply(prefix + [k], patch) {
      forall flat: Flat, keys | flat.patch == patch && flat.enumerateChildren(p) == Right(keys) && Among(keys, names)
        ensures Loop(flat, prefix, Table(Primitive(parse)), split) ==
          Tabled(keys, RowsByName(flat, prefix, Primitive(parse), split, keys))
      {
        TableLoadsRows(flat, prefix, p, keys, Primitive(parse), split);
        RowsRead(flat, prefix, p, keys, parse, split);
      }
    } else {
      var k :| k in names && Apply(p + [k], patch) != Apply(prefix + [k], patch);
      OneKeyToldApart(patch, prefix, p, k, names, parse, split);
    }
  }

  lemma {:induction false} OneKeyToldApart(patch: PathPatch, prefix: Path, p: Path, k: string, names: iset<string>,
      parse: Parser, split: bool)
    requires Apply(prefix, patch) == Right(p)
    requires k in names && Apply(p + [k], patch) != Apply(prefix + [k], patch)
    ensures !TableReadsByName(patch, prefix, p, names, parse, split)
  {
    var f, g := Echo(patch, OneChild(p, k)), Everywhere(patch, OneChild(p, k));
    assert Among([k], names);
    ToldApart(patch, OneChild(p, k), p + [k], prefix + [k], parse, split);
    OneKeyReadAlike(f, prefix, p, k, parse, split);
    OneKeyReadAlike(g, prefix, p, k, parse, split);
    assert f.patch == patch && f.enumerateChildren(p) == Right([k]);
    assert g.patch == patch && g.enumerateChildren(p) == Right([k]);
  }

  /** Under every provider with the patch that lists no indices, a sequence gives the list of what loading
      its element directly gives. */
  ghost predicate SequenceReadsDirectly(patch: PathPatch, prefix: Path, p: Path, parse: Parser, split: bool) {
    forall flat: Flat, keys | flat.patch == patch && flat.enumerateChildren(p) == Right(keys) && IndicesFrom(keys) == [] ::
      Loop(flat, prefix, Sequence(Primitive(parse)), split) == AsList(Loop(flat, prefix, Primitive(parse), true))
  }

  lemma {:induction false} SequenceReadsLike(flat: Flat, prefix: Path, p: Path, keys: seq<string>, parse: Parser,
      split: bool)
    requires Apply(prefix, flat.patch) == Right(p)
    requires flat.enumerateChildren(p) == Right(keys) && IndicesFrom(keys) == []
    ensures Loop(flat, prefix, Sequence(Primitive(parse)), split) == AsList(Loop(flat, prefix, Primitive(parse), true)) <==>
      ReadAlike(flat, p, prefix, parse, true)
  {
    assert Children(flat, prefix) == Right((p, keys));
    var r, q := LoadPrimitive(flat, p, parse, true), LoadPrimitive(flat, prefix, parse, true);
    assert Loop(flat, prefix, Sequence(Primitive(parse)), split) == AsList(r);
    assert Loop(flat, prefix, Primitive(parse), true) == q;
    if AsList(r) == AsList(q) && r.Right? {
      assert [List(r.right)][0] == [List(q.right)][0];
    }
  }

  function Childless(p: Path): Either<ConfigError, seq<string>> {
    Right([])
  }

  /** A sequence without indices reads its text where a direct load reads it, under every provider with the
      patch, exactly when the patch leaves the already patched path alone. */
  lemma {:induction false} SequenceReadsDirectlyIff(patch: PathPatch, prefix: Path, p: Path, parse: Parser, split: bool)
    requires Apply(prefix, patch) == Right(p)
    ensures SequenceReadsDirectly(patch, prefix, p, parse, split) <==> Apply(p, patch) == Right(p)
  {
    if Apply(p, patch) == Right(p) {
      forall flat: Flat, keys | flat.patch == patch && flat.enumerateChildren(p) == Right(keys) && IndicesFrom(keys) == []
        ensures Loop(flat, prefix, Sequence(Primitive(parse)), split) == AsList(Loop(flat, prefix, Primitive(parse), true))
      {
        SequenceReadsLike(flat, prefix, p, keys, parse, split);
      }
    } else {
      var f, g := Echo(patch, Childless), Everywhere(patch, Childless);
      ToldApart(patch, Childless, p, prefix, parse, true);
      assert IndicesFrom([]) == [];
      SequenceReadsLike(f, prefix, p, [], parse, split);
      SequenceReadsLike(g, prefix, p, [], parse, split);
    }
  }

  /** A provider with one value, and at most one key listed at one path. */
  function OneValue(at: Path, v: Value, listed: Path, keys: seq<string>): Flat {
    Flat(Empty,
         (p: Path, _, _) => if p == at then Right([v]) else Left(MissingData(p, NotInMap(Join(p, '.')))),
         (p: Path) => if p == listed then Right(keys) else Right([]))
  }

  function NestedProvider(name: string, at: Path, keys: seq<string>, v: Value): Flat {
    NestedIn(OneValue(at, v, [name], keys), name)
  }

  lemma {:induction false} InNested(name: string, at: Path, keys: seq<string>, v: Value, path: Path, parse: Parser,
      split: bool)
    ensures var f := NestedProvider(name, at, keys, v);
      && Apply(path, f.patch) == Right([name] + path)
      && Loop(f, path, Primitive(parse), split) ==
           if [name] + path == at then Right([v])
           else Left(MissingData([name] + path, NotInMap(Join([name] + path, '.'))))
  {
    var f := NestedProvider(name, at, keys, v);
    assert Apply(path, Empty) == Right(path);
    assert Loop(f, path, Primitive(parse), split) == LoadPrimitive(f, path, parse, split);
  }

  /** Under a nested provider a table does not find the key it has listed, although loading it by name
      succeeds. */
  lemma {:induction false} TablePatchesTwice(name: string, key: string, v: Value, parse: Parser)
    ensures var f, c := NestedProvider(name, [name, key], [key], v), Primitive(parse);
      Loop(f, [], Config.Nested(key, c), false) == Right([v]) && Loop(f, [], Table(c), false).Left?
  {
    var f, c := NestedProvider(name, [name, key], [key], v), Primitive(parse);
    assert [name] + ([] + [key]) == [name, key] && [name] + [] == [name];
    InNested(name, [name, key], [key], v, [], parse, false);
    InNested(name, [name, key], [key], v, [] + [key], parse, false);
    assert Loop(f, [], Config.Nested(key, c), false) == Loop(f, [] + [key], c, false);
    OneKeyTable(f, [], [name], key, c, false);
    InNested(name, [name, key], [key], v, [name] + [key], parse, false);
    assert |[name] + ([name] + [key])| == 3;
  }

  /** Under a nested provider a sequence does not find the text that its element loads directly. */
  lemma {:induction false} SequencePatchesTwice(name: string, v: Value, parse: Parser)
    ensures var f, c := NestedProvider(name, [name], [], v), Primitive(parse);
      Loop(f, [], c, true) == Right([v]) && Loop(f, [], Sequence(c), false).Left?
  {
    InNested(name, [name], [], v, [], parse, true);
    InNested(name, [name], [], v, [name], parse, true);
    assert [name] + [] == [name] && |[name] + [name]| == 2;
    assert IndicesFrom([]) == [];
    var f := NestedProvider(name, [name], [], v);
    assert Children(f, []) == Right(([name], []));
  }
}
