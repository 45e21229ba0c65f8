/** What loading a configuration guarantees, whatever its description. */
module ConfigLoading {
  import opened Options
  import opened Paths
  import opened ConfigErrors
  import opened PathPatches
  import opened ConfigProviders

  // ----- Zipping

  function Min(m: nat, n: nat): nat { if m < n then m else n }

  /** Elements are combined in order up to the first that is missing on either side. */
  lemma {:induction false} ZipElementsUpTo(ls: seq<Element>, rs: seq<Element>, zip: (Value, Value) -> Value, n: nat)
    requires n <= |ls| == |rs|
    requires forall i :: 0 <= i < n ==> ls[i].Right? && rs[i].Right?
    ensures n == |ls| ==>
      var r := ZipElements(ls, rs, zip);
      r.Right? && |r.right| == n && forall i :: 0 <= i < n ==> r.right[i] == zip(ls[i].right, rs[i].right)
    ensures n < |ls| && ls[n].Left? ==> ZipElements(ls, rs, zip) == Left(ls[n].left)
    ensures n < |ls| && ls[n].Right? && rs[n].Left? ==> ZipElements(ls, rs, zip) == Left(rs[n].left)
    decreases n
  {
    if n == 0 {
    } else {
      ZipElementsUpTo(ls[1..], rs[1..], zip, n - 1);
    }
  }

  ghost predicate Zips(ls: seq<Value>, rs: seq<Value>, zip: (Value, Value) -> Value, vs: seq<Value>) {
    |vs| == |ls| == |rs| && forall i :: 0 <= i < |vs| ==> vs[i] == zip(ls[i], rs[i])
  }

  /** Lists of equal length are zipped; otherwise the first index that only one of them has is reported. */
  lemma {:induction false} ZipValuesOutcome(prefix: Path, ls: seq<Value>, rs: seq<Value>, zip: (Value, Value) -> Value)
    ensures var r := ZipValues(prefix, ls, rs, zip);
      if |ls| == |rs| then r.Right? && Zips(ls, rs, zip, r.right)
      else r == Left(MissingData(prefix, ElementMissing(Min(|ls|, |rs|), Join(prefix, '.'))))
  {
    var x := Extend(MissingElement(prefix), MissingElement(prefix), Elements(ls), Elements(rs));
    ZipElementsUpTo(x.0, x.1, zip, Min(|ls|, |rs|));
  }

  /** A zip succeeds exactly when both sides do, with equally many values. */
  lemma {:induction false} ZippedSucceedsIff(
      flat: Flat, prefix: Path, l: Config, r: Config, zip: (Value, Value) -> Value, split: bool)
    ensures var a, b, c := Loop(flat, prefix, l, split), Loop(flat, prefix, r, split),
                           Loop(flat, prefix, Zipped(l, r, zip), split);
      && (c.Right? <==> a.Right? && b.Right? && |a.right| == |b.right|)
      && (c.Right? ==> Zips(a.right, b.right, zip, c.right))
      && (a.Left? && b.Left? ==> c == Left(And(a.left, b.left)))
      && (a.Left? && b.Right? ==> c == a) && (a.Right? && b.Left? ==> c == b)
  {
    var a, b := Loop(flat, prefix, l, split), Loop(flat, prefix, r, split);
    assert Loop(flat, prefix, Zipped(l, r, zip), split) == ZipOutcomes(prefix, a, b, zip);
    OutcomesZipped(prefix, a, b, zip);
  }

  lemma {:induction false} OutcomesZipped(prefix: Path, a: Outcome, b: Outcome, zip: (Value, Value) -> Value)
    ensures var c := ZipOutcomes(prefix, a, b, zip);
      && (c.Right? <==> a.Right? && b.Right? && |a.right| == |b.right|)
      && (c.Right? ==> Zips(a.right, b.right, zip, c.right))
      && (a.Left? && b.Left? ==> c == Left(And(a.left, b.left)))
      && (a.Left? && b.Right? ==> c == a) && (a.Right? && b.Left? ==> c == b)
  {
    if a.Right? && b.Right? { ZipValuesOutcome(prefix, a.right, b.right, zip); }
  }

  // ----- Mapping

  /** The first element that the function rejects. */
  ghost predicate RejectsFirst<A, B>(xs: seq<A>, f: A -> Either<ConfigError, B>, i: nat) {
    i < |xs| && f(xs[i]).Left? && forall j :: 0 <= j < i ==> f(xs[j]).Right?
  }

  ghost predicate Accepts<A, B>(xs: seq<A>, f: A -> Either<ConfigError, B>) {
    forall i :: 0 <= i < |xs| ==> f(xs[i]).Right?
  }

  ghost predicate AreImages<A, B>(xs: seq<A>, f: A -> Either<ConfigError, B>, ys: seq<B>) {
    |ys| == |xs| && forall i :: 0 <= i < |xs| ==> f(xs[i]) == Right(ys[i])
  }

  lemma AcceptsFirst<A, B>(xs: seq<A>, f: A -> Either<ConfigError, B>)
    requires xs != []
    ensures Accepts(xs, f) <==> f(xs[0]).Right? && Accepts(xs[1..], f)
  {
    assert xs == [xs[0]] + xs[1..];
    if f(xs[0]).Right? && Accepts(xs[1..], f) {
      forall i | 0 <= i < |xs| ensures f(xs[i]).Right? {
        if i > 0 { assert xs[i] == xs[1..][i - 1]; }
      }
    }
  }

  lemma {:induction false} Traversed<A, B>(xs: seq<A>, f: A -> Either<ConfigError, B>)
    ensures var r := Traverse(xs, f); (r.Right? <==> Accepts(xs, f)) && (r.Right? ==> AreImages(xs, f, r.right))
  {
    if xs == [] {
    } else {
      Traversed(xs[1..], f);
      AcceptsFirst(xs, f);
      if Traverse(xs, f).Right? {
        var ys := Traverse(xs[1..], f).right;
        forall i | 0 <= i < |xs| ensures f(xs[i]) == Right(([f(xs[0]).right] + ys)[i]) {
          if i > 0 { assert xs[i] == xs[1..][i - 1]; }
        }
      }
    }
  }

  lemma {:induction false} TraverseRejects<A, B>(xs: seq<A>, f: A -> Either<ConfigError, B>, i: nat)
    requires RejectsFirst(xs, f, i)
    ensures Traverse(xs, f) == Left(f(xs[i]).left)
    decreases i
  {
    if i == 0 {
    } else {
      assert f(xs[0]).Right? && xs[1..][i - 1] == xs[i];
      forall j | 0 <= j < i - 1 ensures f(xs[1..][j]).Right? { assert xs[1..][j] == xs[j + 1]; }
      TraverseRejects(xs[1..], f, i - 1);
    }
  }

  /** What fails at all has a first failure. */
  lemma {:induction false} SomeFirst<A, B>(xs: seq<A>, f: A -> Either<ConfigError, B>) returns (i: nat)
    requires !Accepts(xs, f)
    ensures RejectsFirst(xs, f, i)
  {
    i := 0;
    while f(xs[i]).Right?
      invariant i < |xs| && forall j :: 0 <= j < i ==> f(xs[j]).Right?
      decreases |xs| - i
    {
      if i + 1 == |xs| {
        assert Accepts(xs, f);
      }
      i := i + 1;
    }
  }

  /** A mapped configuration loads the image of every value, in order, when there are images of all of them, and
      otherwise fails with the first rejection, at the prefix; the errors of what is mapped stay as they are. */
  lemma {:induction false} MapOrFailOutcome(
      flat: Flat, prefix: Path, c: Config, f: Value -> Either<ConfigError, Value>, split: bool)
    ensures var a, r := Loop(flat, prefix, c, split), Loop(flat, prefix, MapOrFail(c, f), split);
      && (a.Left? ==> r == a)
      && (r.Right? <==> a.Right? && Accepts(a.right, f))
      && (r.Right? ==> AreImages(a.right, f, r.right))
      && (a.Right? ==> forall i: nat :: RejectsFirst(a.right, f, i) ==> r == Left(Prefixed(f(a.right[i]).left, prefix)))
      && (a.Right? && r.Left? ==> exists i: nat :: RejectsFirst(a.right, f, i))
  {
    var a, g := Loop(flat, prefix, c, split), MapValues(f, prefix);
    if a.Right? {
      var vs := a.right;
      Traversed(vs, g);
      assert forall v :: f(v).Right? ==> g(v) == f(v);
      assert Accepts(vs, g) <==> Accepts(vs, f);
      forall i: nat | RejectsFirst(vs, f, i) ensures Traverse(vs, g) == Left(Prefixed(f(vs[i]).left, prefix)) {
        TraverseRejects(vs, g, i);
      }
      if !Accepts(vs, f) { var i := SomeFirst(vs, f); }
    }
  }

  // ----- Fallbacks

  /** Falling back is trying alternatives in order: the first that loads wins, up to one whose error the condition
      does not admit; the errors of all that were tried are reported, in order. */
  lemma {:induction false} FallbackOutcome(
      flat: Flat, prefix: Path, c: Config, d: Config, condition: ConfigError -> bool, split: bool)
    ensures var a, b, r := Loop(flat, prefix, c, split), Loop(flat, prefix, d, split),
                           Loop(flat, prefix, Fallback(c, d, condition), split);
      && (r.Right? <==> a.Right? || (condition(a.left) && b.Right?))
      && (a.Right? ==> r == a)
      && (a.Left? && r.Right? ==> r == b)
      && (r.Left? ==> r.left == if condition(a.left) then Or(a.left, b.left) else a.left)
  {}

  // ----- Defaults

  function WithDefault(self: Config, def: Value): Config {
    Fallback(self, Lazy(Constant(def)), e => MissingOnly(e))
  }

  /** The default is used exactly when every leaf of the error is about missing data; what is left to
      fail with is never such an error. */
  lemma {:induction false} DefaultOutcome(flat: Flat, prefix: Path, config: Config, def: Value, split: bool)
    ensures var a, d := Loop(flat, prefix, config, split), Loop(flat, prefix, WithDefault(config, def), split);
      && (a.Left? && AllMissing(Leaves(a.left)) ==> d == Right([def]))
      && (!(a.Left? && AllMissing(Leaves(a.left))) ==> d == a)
      && (d.Left? ==> !AllMissing(Leaves(d.left)))
  {
    var a := Loop(flat, prefix, config, split);
    if a.Left? { MissingOnlyIff(a.left); }
    assert Loop(flat, prefix, Constant(def), split) == Right([def]);
    assert Loop(flat, prefix, Lazy(Constant(def)), split) == Right([def]);
  }

  // ----- Where errors point

  ghost predicate ErrorsUnder<T>(r: Either<ConfigError, T>, prefix: Path) {
    r.Left? ==> Under(r.left, prefix)
  }

  /** A provider that reports its errors below the path it was asked for, and never loads nothing. */
  ghost predicate Faithful(flat: Flat) {
    && flat.patch == Empty
    && (forall p, parse, split :: ErrorsUnder(flat.load(p, parse, split), p) && flat.load(p, parse, split) != Right([]))
    && (forall p :: ErrorsUnder(flat.enumerateChildren(p), p))
  }

  lemma {:induction false} UnderEither(e: ConfigError, f: ConfigError, prefix: Path)
    requires Under(e, prefix) && Under(f, prefix)
    ensures Under(And(e, f), prefix) && Under(Or(e, f), prefix)
  {
    UnderBoth(And(e, f), prefix);
    UnderBoth(Or(e, f), prefix);
  }

  lemma {:induction false} TraverseUnder(vs: seq<Value>, f: Value -> Either<ConfigError, Value>, prefix: Path)
    ensures ErrorsUnder(Traverse(vs, MapValues(f, prefix)), prefix)
  {
    if vs == [] {
    } else {
      if f(vs[0]).Left? { PrefixedUnder(f(vs[0]).left, prefix); }
      TraverseUnder(vs[1..], f, prefix);
    }
  }

  lemma {:induction false} ZipOutcomesUnder(prefix: Path, a: Outcome, b: Outcome, zip: (Value, Value) -> Value)
    requires ErrorsUnder(a, prefix) && ErrorsUnder(b, prefix)
    ensures ErrorsUnder(ZipOutcomes(prefix, a, b, zip), prefix)
  {
    if a.Left? && b.Left? {
      UnderEither(a.left, b.left, prefix);
    } else if a.Right? && b.Right? {
      ZipValuesOutcome(prefix, a.right, b.right, zip);
      if |a.right| != |b.right| {
        UnderOne(ZipValues(prefix, a.right, b.right, zip).left, prefix);
      }
    }
  }

  /** Every leaf of every error concerns a path that extends the one the configuration was loaded at. */
  lemma {:induction false} ErrorsStayBelowThePrefix(flat: Flat, prefix: Path, config: Config, split: bool)
    requires Faithful(flat)
    ensures ErrorsUnder(Loop(flat, prefix, config, split), prefix)
    decreases config, 0, 0
  {
    match config
    case Constant(_) =>
    case Fail(m) => UnderOne(MissingData(prefix, m), prefix);
    case Primitive(parse) =>
      assert ErrorsUnder(flat.load(prefix, parse, split), prefix);
    case Described(c) => ErrorsStayBelowThePrefix(flat, prefix, c, split);
    case Lazy(c) => ErrorsStayBelowThePrefix(flat, prefix, c, split);
    case Fallback(first, second, condition) =>
      ErrorsStayBelowThePrefix(flat, prefix, first, split);
      ErrorsStayBelowThePrefix(flat, prefix, second, split);
      var a, b := Loop(flat, prefix, first, split), Loop(flat, prefix, second, split);
      if a.Left? && b.Left? { UnderEither(a.left, b.left, prefix); }
    case MapOrFail(original, f) =>
      ErrorsStayBelowThePrefix(flat, prefix, original, split);
      var a := Loop(flat, prefix, original, split);
      if a.Right? { TraverseUnder(a.right, f, prefix); }
    case Nested(name, c) =>
      ErrorsStayBelowThePrefix(flat, prefix + [name], c, split);
      var a := Loop(flat, prefix + [name], c, split);
      if a.Left? { UnderShorter(a.left, prefix, prefix + [name]); }
    case Sequence(c) =>
      SequenceErrors(flat, prefix, c);
    case Table(c) =>
      assert ErrorsUnder(flat.enumerateChildren(prefix), prefix);
      var children := Children(flat, prefix);
      if children.Right? {
        EachErrors(flat, prefix, KeyPaths(prefix, children.right.1), c, split);
      }
    case Zipped(l, r, zip) =>
      ErrorsStayBelowThePrefix(flat, prefix, l, split);
      ErrorsStayBelowThePrefix(flat, prefix, r, split);
      ZipOutcomesUnder(prefix, Loop(flat, prefix, l, split), Loop(flat, prefix, r, split), zip);
  }

  lemma {:induction false} SequenceErrors(flat: Flat, prefix: Path, c: Config)
    requires Faithful(flat)
    ensures forall split :: ErrorsUnder(Loop(flat, prefix, Sequence(c), split), prefix)
    decreases c, 2, 0
  {
    assert ErrorsUnder(flat.enumerateChildren(prefix), prefix);
    var children := Children(flat, prefix);
    if children.Right? {
      ErrorsStayBelowThePrefix(flat, prefix, c, true);
      EachErrors(flat, prefix, IndexPaths(prefix, IndicesFrom(children.right.1)), c, true);
    }
  }

  lemma {:induction false} EachErrors(flat: Flat, prefix: Path, paths: seq<Path>, config: Config, split: bool)
    requires Faithful(flat) && forall i :: 0 <= i < |paths| ==> prefix <= paths[i]
    ensures ErrorsUnder(LoopEach(flat, paths, config, split), prefix)
    decreases config, 1, |paths|
  {
    if paths == [] {
    } else {
      ErrorsStayBelowThePrefix(flat, paths[0], config, split);
      var a := Loop(flat, paths[0], config, split);
      if a.Left? { UnderShorter(a.left, prefix, paths[0]); }
      EachErrors(flat, prefix, paths[1..], config, split);
    }
  }

  // ----- What loading depends on

  ghost predicate Permuted(a: Either<ConfigError, seq<string>>, b: Either<ConfigError, seq<string>>) {
    match a
    case Left(e) => a == b
    case Right(s) => b.Right? && multiset(s) == multiset(b.right)
  }

  /** Providers that agree on every path from the prefix on, up to the order of children. */
  ghost predicate Agree(f: Flat, g: Flat, prefix: Path) {
    && f.patch == Empty && g.patch == Empty
    && (forall p, parse, split :: prefix <= p ==> f.load(p, parse, split) == g.load(p, parse, split))
    && (forall p :: prefix <= p ==> Permuted(f.enumerateChildren(p), g.enumerateChildren(p)))
  }

  ghost predicate SameOrder(f: Flat, g: Flat, prefix: Path) {
    forall p :: prefix <= p ==> f.enumerateChildren(p) == g.enumerateChildren(p)
  }

  predicate HasTable(config: Config) {
    match config
    case Table(_) => true
    case Described(c) => HasTable(c)
    case Lazy(c) => HasTable(c)
    case Nested(_, c) => HasTable(c)
    case Sequence(c) => HasTable(c)
    case MapOrFail(c, _) => HasTable(c)
    case Fallback(c, d, _) => HasTable(c) || HasTable(d)
    case Zipped(c, d, _) => HasTable(c) || HasTable(d)
    case _ => false
  }

  ghost predicate Alike(f: Flat, g: Flat, prefix: Path, config: Config) {
    Agree(f, g, prefix) && (HasTable(config) ==> SameOrder(f, g, prefix))
  }

  lemma {:induction false} AlikeBelow(f: Flat, g: Flat, prefix: Path, config: Config, longer: Path, part: Config)
    requires Alike(f, g, prefix, config) && prefix <= longer && (HasTable(part) ==> HasTable(config))
    ensures Alike(f, g, longer, part)
  {}

  lemma {:induction false} InsertCommutes(m: nat, n: nat, s: seq<nat>)
    ensures Insert(m, Insert(n, s)) == Insert(n, Insert(m, s))
  {
    if s == [] {
    } else {
      InsertCommutes(m, n, s[1..]);
    }
  }

  function SortedIndices(keys: seq<string>): Option<seq<nat>> {
    match ParseIndices(keys) case None => None case Some(ns) => Some(Sort(ns))
  }

  function AddIndex(n: Option<nat>, ns: Option<seq<nat>>): Option<seq<nat>> {
    if n.Some? && ns.Some? then Some(Insert(n.value, ns.value)) else None
  }

  lemma {:induction false} SortedFirst(k: string, keys: seq<string>)
    ensures SortedIndices([k] + keys) == AddIndex(ParseQuotedIndex(k), SortedIndices(keys))
  {
    assert ([k] + keys)[1..] == keys;
    var ns := ParseIndices(keys);
    if ns.Some? && ParseQuotedIndex(k).Some? {
      assert ([ParseQuotedIndex(k).value] + ns.value)[1..] == ns.value;
    }
  }

  lemma {:induction false} SortedAnywhere(pre: seq<string>, k: string, post: seq<string>)
    ensures SortedIndices(pre + ([k] + post)) == AddIndex(ParseQuotedIndex(k), SortedIndices(pre + post))
  {
    if pre == [] {
      assert pre + ([k] + post) == [k] + post && pre + post == post;
      SortedFirst(k, post);
    } else {
      assert pre + ([k] + post) == [pre[0]] + (pre[1..] + ([k] + post));
      assert pre + post == [pre[0]] + (pre[1..] + post);
      SortedFirst(pre[0], pre[1..] + ([k] + post));
      SortedFirst(pre[0], pre[1..] + post);
      SortedAnywhere(pre[1..], k, post);
      var m, n, s := ParseQuotedIndex(pre[0]), ParseQuotedIndex(k), SortedIndices(pre[1..] + post);
      if m.Some? && n.Some? && s.Some? { InsertCommutes(m.value, n.value, s.value); }
    }
  }

  lemma {:induction false} SortedPermutation(a: seq<string>, b: seq<string>)
    requires multiset(a) == multiset(b)
    ensures SortedIndices(a) == SortedIndices(b)
  {
    if a == [] {
      assert |multiset(b)| == 0;
    } else {
      var j := MovedFrom(a, b);
      var rest, l, r := a[1..], b[..j], b[j + 1..];
      SortedPermutation(rest, l + r);
      assert [a[0]] + rest == a && l + ([a[0]] + r) == b;
      SortedFirst(a[0], rest);
      SortedAnywhere(l, a[0], r);
    }
  }

  /** The order in which the children are listed does not matter. */
  lemma {:induction false} IndicesIgnoreOrder(a: seq<string>, b: seq<string>)
    requires multiset(a) == multiset(b)
    ensures IndicesFrom(a) == IndicesFrom(b)
  {
    SortedPermutation(a, b);
  }

  ghost predicate Ascending(s: seq<nat>) {
    forall i, j :: 0 <= i < j < |s| ==> s[i] <= s[j]
  }

  lemma {:induction false} InsertMembers(n: nat, s: seq<nat>)
    ensures multiset(Insert(n, s)) == multiset{n} + multiset(s)
  {
    if s != [] && n > s[0] {
      InsertMembers(n, s[1..]);
      assert s == [s[0]] + s[1..];
    }
  }

  lemma {:induction false} InsertAscends(n: nat, s: seq<nat>)
    requires Ascending(s)
    ensures Ascending(Insert(n, s))
  {
    if s != [] && n > s[0] {
      var r := Insert(n, s[1..]);
      InsertAscends(n, s[1..]);
      InsertMembers(n, s[1..]);
      forall i | 0 <= i < |r| ensures s[0] <= r[i] {
        assert r[i] in multiset(r);
        assert r[i] == n || r[i] in s[1..];
      }
    }
  }

  lemma {:induction false} SortAscends(s: seq<nat>)
    ensures Ascending(Sort(s)) && multiset(Sort(s)) == multiset(s)
  {
    if s == [] {
    } else {
      SortAscends(s[1..]);
      InsertAscends(s[0], Sort(s[1..]));
      InsertMembers(s[0], Sort(s[1..]));
      assert s == [s[0]] + s[1..];
    }
  }

  /** The indices come out ascending, each as often as it is listed. */
  lemma {:induction false} IndicesAscend(keys: seq<string>)
    ensures Ascending(IndicesFrom(keys))
    ensures ParseIndices(keys).Some? ==> multiset(IndicesFrom(keys)) == multiset(ParseIndices(keys).value)
  {
    if ParseIndices(keys).Some? { SortAscends(ParseIndices(keys).value); }
  }

  /** Loading only looks at paths that extend the prefix, and does not depend on the order in which
      children are listed unless a table is involved. */
  lemma {:induction false} LoadingIsLocal(f: Flat, g: Flat, prefix: Path, config: Config, split: bool)
    requires Alike(f, g, prefix, config)
    ensures Loop(f, prefix, config, split) == Loop(g, prefix, config, split)
    decreases config, 0, 0
  {
    match config
    case Constant(_) =>
    case Fail(_) =>
    case Primitive(parse) => assert prefix <= prefix;
    case Described(c) => LoadingIsLocal(f, g, prefix, c, split);
    case Lazy(c) => LoadingIsLocal(f, g, prefix, c, split);
    case Fallback(first, second, _) =>
      LoadingIsLocal(f, g, prefix, first, split);
      LoadingIsLocal(f, g, prefix, second, split);
    case MapOrFail(original, _) => LoadingIsLocal(f, g, prefix, original, split);
    case Nested(name, c) =>
      AlikeBelow(f, g, prefix, config, prefix + [name], c);
      LoadingIsLocal(f, g, prefix + [name], c, split);
    case Sequence(c) => SequenceIsLocal(f, g, prefix, c, split);
    case Table(c) =>
      assert f.enumerateChildren(prefix) == g.enumerateChildren(prefix);
      var children := Children(f, prefix);
      if children.Right? {
        EachIsLocal(f, g, prefix, KeyPaths(prefix, children.right.1), c, split);
      }
    case Zipped(l, r, _) =>
      LoadingIsLocal(f, g, prefix, l, split);
      LoadingIsLocal(f, g, prefix, r, split);
  }

  lemma {:induction false} SequenceIsLocal(f: Flat, g: Flat, prefix: Path, c: Config, split: bool)
    requires Alike(f, g, prefix, c)
    ensures Loop(f, prefix, Sequence(c), split) == Loop(g, prefix, Sequence(c), split)
    decreases c, 2, 0
  {
    assert Permuted(f.enumerateChildren(prefix), g.enumerateChildren(prefix));
    var a, b := f.enumerateChildren(prefix), g.enumerateChildren(prefix);
    if a.Right? {
      IndicesIgnoreOrder(a.right, b.right);
      LoadingIsLocal(f, g, prefix, c, true);
      EachIsLocal(f, g, prefix, IndexPaths(prefix, IndicesFrom(a.right)), c, true);
    }
  }

  lemma {:induction false} EachIsLocal(f: Flat, g: Flat, prefix: Path, paths: seq<Path>, config: Config, split: bool)
    requires Alike(f, g, prefix, config) && forall i :: 0 <= i < |paths| ==> prefix <= paths[i]
    ensures LoopEach(f, paths, config, split) == LoopEach(g, paths, config, split)
    decreases config, 1, |paths|
  {
    if paths == [] {
    } else {
      AlikeBelow(f, g, prefix, config, paths[0], config);
      LoadingIsLocal(f, g, paths[0], config, split);
      EachIsLocal(f, g, prefix, paths[1..], config, split);
    }
  }

  // ----- How many values

  ghost predicate SingleAt(flat: Flat, path: Path, parse: Parser) {
    var r := LoadPrimitive(flat, path, parse, false);
    r.Right? ==> |r.right| == 1
  }

  /** A provider that loads one value from wherever its patch leads, where texts are not to be split. */
  ghost predicate SingleLoads(flat: Flat) {
    forall path, parse :: SingleAt(flat, path, parse)
  }

  /** Outside sequences every configuration loads exactly one value. */
  lemma {:induction false} OneValueOutsideSequences(flat: Flat, prefix: Path, config: Config)
    requires SingleLoads(flat)
    ensures Loop(flat, prefix, config, false).Right? ==> |Loop(flat, prefix, config, false).right| == 1
    decreases config
  {
    match config
    case Constant(_) =>
    case Fail(_) =>
    case Primitive(parse) => assert SingleAt(flat, prefix, parse);
    case Sequence(_) =>
    case Described(c) => OneValueOutsideSequences(flat, prefix, c);
    case Lazy(c) => OneValueOutsideSequences(flat, prefix, c);
    case Fallback(first, second, _) =>
      OneValueOutsideSequences(flat, prefix, first);
      OneValueOutsideSequences(flat, prefix, second);
    case MapOrFail(original, _) => OneValueOutsideSequences(flat, prefix, original);
    case Nested(name, c) => OneValueOutsideSequences(flat, prefix + [name], c);
    case Table(c) =>
      var children := Children(flat, prefix);
      if children.Right? && children.right.1 != [] {
        OneValueOutsideSequences(flat, KeyPaths(children.right.0, children.right.1)[0], c);
      }
    case Zipped(l, r, zip) =>
      OneValueOutsideSequences(flat, prefix, l);
      OneValueOutsideSequences(flat, prefix, r);
      ZippedSucceedsIff(flat, prefix, l, r, zip, false);
  }

  /** What a user loads is the value, not one of several. */
  ghost predicate GivesTheValue(flat: Flat, config: Config) {
    Loop(flat, [], config, false) == match Load(flat, config) case Right(v) => Right([v]) case Left(e) => Left(e)
  }

  function Along(path: Path, config: Config): Config {
    if path == [] then config else Config.Nested(path[0], Along(path[1..], config))
  }

  lemma {:induction false} LoopAlong(flat: Flat, prefix: Path, path: Path, config: Config, split: bool)
    ensures Loop(flat, prefix, Along(path, config), split) == Loop(flat, prefix + path, config, split)
    decreases path
  {
    if path == [] {
      assert prefix + path == prefix;
    } else {
      LoopAlong(flat, prefix + [path[0]], path[1..], config, split);
      assert prefix + [path[0]] + path[1..] == prefix + path;
    }
  }

  lemma {:induction false} GivesTheValueIff(flat: Flat, config: Config)
    ensures var r := Loop(flat, [], config, false);
      GivesTheValue(flat, config) <==> (r.Right? ==> |r.right| == 1)
  {
    LoopNonEmpty(flat, [], config, false);
    var r := Loop(flat, [], config, false);
    if r.Right? && |r.right| == 1 { assert r.right == [r.right[0]]; }
  }

  /** Every configuration gives its user the value, not one of several, exactly when the provider loads
      single values from wherever its patch leads. */
  lemma {:induction false} LoadGivesTheValue(flat: Flat)
    ensures (forall config :: GivesTheValue(flat, config)) <==> SingleLoads(flat)
  {
    if SingleLoads(flat) {
      forall config ensures GivesTheValue(flat, config) {
        OneValueOutsideSequences(flat, [], config);
        GivesTheValueIff(flat, config);
      }
    } else {
      var path, parse :| !SingleAt(flat, path, parse);
      var config := Along(path, Primitive(parse));
      LoopAlong(flat, [], path, Primitive(parse), false);
      assert [] + path == path;
      GivesTheValueIff(flat, config);
      assert !GivesTheValue(flat, config);
    }
  }

  /** Hence outside sequences a zip succeeds exactly when both sides do: no element is ever missing. */
  lemma {:induction false} ZipsAlignOutsideSequences(
      flat: Flat, prefix: Path, l: Config, r: Config, zip: (Value, Value) -> Value)
    requires SingleLoads(flat)
    ensures Loop(flat, prefix, Zipped(l, r, zip), false).Right? <==>
      Loop(flat, prefix, l, false).Right? && Loop(flat, prefix, r, false).Right?
  {
    OneValueOutsideSequences(flat, prefix, l);
    OneValueOutsideSequences(flat, prefix, r);
    ZippedSucceedsIff(flat, prefix, l, r, zip, false);
  }

  // ----- Indexed sequences

  function QuoteAll(ns: seq<nat>): (r: seq<string>)
    ensures |r| == |ns| && forall i :: 0 <= i < |r| ==> r[i] == Quoted(ns[i])
  {
    if ns == [] then [] else [Quoted(ns[0])] + QuoteAll(ns[1..])
  }

  lemma {:induction false} ParseQuoted(ns: seq<nat>)
    ensures ParseIndices(QuoteAll(ns)) == Some(ns)
  {
    if ns == [] {
    } else {
      ParseQuoted(ns[1..]);
      ReadWrittenIndex("", ns[0]);
      assert QuoteAll(ns)[1..] == QuoteAll(ns[1..]);
      assert ns == [ns[0]] + ns[1..];
    }
  }

  lemma {:induction false} SortSorted(ns: seq<nat>)
    requires Ascending(ns)
    ensures Sort(ns) == ns
  {
    if ns == [] {
    } else {
      SortSorted(ns[1..]);
      assert ns == [ns[0]] + ns[1..];
      assert ns[1..] != [] ==> ns[0] <= ns[1..][0];
    }
  }

  /** The indices of a listing of quoted indices, whatever its order. */
  lemma {:induction false} IndicesOfQuoted(keys: seq<string>, ns: seq<nat>)
    requires Ascending(ns) && multiset(keys) == multiset(QuoteAll(ns))
    ensures IndicesFrom(keys) == ns
  {
    IndicesIgnoreOrder(keys, QuoteAll(ns));
    ParseQuoted(ns);
    SortSorted(ns);
  }

  ghost predicate StoredAt(flat: Flat, prefix: Path, config: Config, ns: seq<nat>, vss: seq<seq<Value>>) {
    |ns| == |vss| && forall i :: 0 <= i < |ns| ==> Loop(flat, prefix + [Quoted(ns[i])], config, true) == Right(vss[i])
  }

  lemma {:induction false} EachInOrder(flat: Flat, prefix: Path, config: Config, ns: seq<nat>, vss: seq<seq<Value>>)
    requires StoredAt(flat, prefix, config, ns, vss)
    ensures LoopEach(flat, IndexPaths(prefix, ns), config, true) == Right(vss)
    decreases ns
  {
    if ns == [] {
    } else {
      var later, others := ns[1..], vss[1..];
      var first, rest := prefix + [Quoted(ns[0])], IndexPaths(prefix, later);
      StoredBelowFirst(flat, prefix, config, ns, vss);
      EachInOrder(flat, prefix, config, later, others);
      EachFirst(flat, first, rest, config, vss[0], others);
      assert IndexPaths(prefix, ns) == [first] + rest && vss == [vss[0]] + others;
    }
  }

  lemma {:induction false} StoredBelowFirst(flat: Flat, prefix: Path, config: Config, ns: seq<nat>,
      vss: seq<seq<Value>>)
    requires StoredAt(flat, prefix, config, ns, vss) && ns != []
    ensures StoredAt(flat, prefix, config, ns[1..], vss[1..])
    ensures Loop(flat, prefix + [Quoted(ns[0])], config, true) == Right(vss[0])
  {
    forall i | 0 <= i < |ns[1..]| ensures Loop(flat, prefix + [Quoted(ns[1..][i])], config, true) == Right(vss[1..][i]) {
      assert ns[1..][i] == ns[i + 1] && vss[1..][i] == vss[i + 1];
    }
  }

  lemma {:induction false} EachFirst(flat: Flat, path: Path, rest: seq<Path>, config: Config, vs: seq<Value>,
      vss: seq<seq<Value>>)
    requires Loop(flat, path, config, true) == Right(vs) && LoopEach(flat, rest, config, true) == Right(vss)
    ensures LoopEach(flat, [path] + rest, config, true) == Right([vs] + vss)
  {
    assert ([path] + rest)[1..] == rest;
  }

  /** What is stored under indices, with or without gaps, loads in ascending order of the indices,
      whatever the order in which they are listed. */
  lemma {:induction false} IndexedSequenceLoadsInOrder(
      flat: Flat, prefix: Path, config: Config, keys: seq<string>, ns: seq<nat>, vss: seq<seq<Value>>, split: bool)
    requires flat.patch == Empty && flat.enumerateChildren(prefix) == Right(keys)
    requires ns != [] && Ascending(ns) && multiset(keys) == multiset(QuoteAll(ns))
    requires StoredAt(flat, prefix, config, ns, vss)
    ensures Loop(flat, prefix, Sequence(config), split) == Right([List(Flatten(vss))])
  {
    IndicesOfQuoted(keys, ns);
    EachInOrder(flat, prefix, config, ns, vss);
    SequenceAtIndices(flat, prefix, config, keys, split, vss);
  }

  lemma {:induction false} SequenceAtIndices(flat: Flat, prefix: Path, c: Config, keys: seq<string>, split: bool,
      vss: seq<seq<Value>>)
    requires Children(flat, prefix) == Right((prefix, keys)) && IndicesFrom(keys) != []
    requires LoopEach(flat, IndexPaths(prefix, IndicesFrom(keys)), c, true) == Right(vss)
    ensures Loop(flat, prefix, Sequence(c), split) == Right([List(Flatten(vss))])
  {}
}
