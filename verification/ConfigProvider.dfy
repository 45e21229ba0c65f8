/** The interpreter that loads a configuration description from a flat provider. */
module ConfigProviders {
  import opened Options
  import opened Paths
  import opened ConfigErrors
  import opened PathPatches

  type Scalar(==, !new)

  /** Loaded values. `Undefined` is what reading past the end of an array gives. */
  datatype Value =
    | Atom(scalar: Scalar)
    | Undefined
    | List(elements: seq<Value>)
    | Record(fields: map<string, Value>)

  type Parser = string -> Either<ConfigError, Value>

  datatype Config =
    | Constant(value: Value)
    | Described(config: Config)
    | Fail(message: Message)
    | Fallback(first: Config, second: Config, condition: ConfigError -> bool)
    | Lazy(config: Config)
    | MapOrFail(original: Config, mapOrFail: Value -> Either<ConfigError, Value>)
    | Nested(name: string, config: Config)
    | Primitive(parse: Parser)
    | Sequence(config: Config)
    | Table(valueConfig: Config)
    | Zipped(left: Config, right: Config, zip: (Value, Value) -> Value)

  type Outcome = Either<ConfigError, seq<Value>>

  /** `enumerateChildren` lists a set in the order in which it is iterated. */
  datatype Flat = Flat(
    patch: PathPatch,
    load: (Path, Parser, bool) -> Outcome,
    enumerateChildren: Path -> Either<ConfigError, seq<string>>)

  /** The provider nested under a name; it always splits texts. */
  function NestedIn(flat: Flat, name: string): Flat {
    Flat(AndThen(flat.patch, PathPatch.Nested(name)),
         (p: Path, parse: Parser, _) => flat.load(p, parse, true), flat.enumerateChildren)
  }

  /** The provider relieved of a name; it always splits texts, too. */
  function UnnestedIn(flat: Flat, name: string): Flat {
    Flat(AndThen(flat.patch, PathPatch.Unnested(name)),
         (p: Path, parse: Parser, _) => flat.load(p, parse, true), flat.enumerateChildren)
  }

  // ----- Lists

  function Traverse<A, B>(xs: seq<A>, f: A -> Either<ConfigError, B>): (r: Either<ConfigError, seq<B>>)
    ensures r.Right? ==> |r.right| == |xs|
  {
    if xs == [] then Right([])
    else match f(xs[0])
      case Left(e) => Left(e)
      case Right(y) => (match Traverse(xs[1..], f) case Left(e) => Left(e) case Right(ys) => Right([y] + ys))
  }

  function Flatten(xss: seq<seq<Value>>): seq<Value> {
    if xss == [] then [] else xss[0] + Flatten(xss[1..])
  }

  /** The values `def` gives for the indices from `index` up to `limit`. */
  function Unfold<A>(def: nat -> A, index: nat, limit: nat): (r: seq<A>)
    ensures |r| == if index < limit then limit - index else 0
    ensures forall i :: 0 <= i < |r| ==> r[i] == def(index + i)
    decreases limit - index
  {
    if index >= limit then [] else [def(index)] + Unfold(def, index + 1, limit)
  }

  /** Pads the shorter of two lists to the length of the longer. */
  function Extend<A, B>(leftDef: nat -> A, rightDef: nat -> B, left: seq<A>, right: seq<B>): (r: (seq<A>, seq<B>))
    ensures |r.0| == |r.1| && left <= r.0 && right <= r.1
    ensures forall i :: |left| <= i < |r.0| ==> r.0[i] == leftDef(i)
    ensures forall i :: |right| <= i < |r.1| ==> r.1[i] == rightDef(i)
    ensures |r.0| == |left| || |r.1| == |right|
  {
    (left + Unfold(leftDef, |left|, |right|), right + Unfold(rightDef, |right|, |left|))
  }

  type Element = Either<ConfigError, Value>

  function Elements(vs: seq<Value>): (r: seq<Element>)
    ensures |r| == |vs| && forall i :: 0 <= i < |vs| ==> r[i] == Right(vs[i])
  {
    if vs == [] then [] else [Right(vs[0])] + Elements(vs[1..])
  }

  function ZipElements(ls: seq<Element>, rs: seq<Element>, zip: (Value, Value) -> Value): Outcome
    requires |ls| == |rs|
    decreases ls
  {
    if ls == [] then Right([])
    else if ls[0].Left? then Left(ls[0].left)
    else if rs[0].Left? then Left(rs[0].left)
    else match ZipElements(ls[1..], rs[1..], zip)
      case Left(e) => Left(e)
      case Right(vs) => Right([zip(ls[0].right, rs[0].right)] + vs)
  }

  function MissingElement(prefix: Path): nat -> Element {
    (index: nat) => Left(MissingData(prefix, ElementMissing(index, Join(prefix, '.'))))
  }

  function ZipValues(prefix: Path, ls: seq<Value>, rs: seq<Value>, zip: (Value, Value) -> Value): Outcome {
    var r := Extend(MissingElement(prefix), MissingElement(prefix), Elements(ls), Elements(rs));
    ZipElements(r.0, r.1, zip)
  }

  // ----- Indices and tables

  function Insert(n: nat, ns: seq<nat>): seq<nat> {
    if ns == [] || n <= ns[0] then [n] + ns else [ns[0]] + Insert(n, ns[1..])
  }

  function Sort(ns: seq<nat>): seq<nat> {
    if ns == [] then [] else Insert(ns[0], Sort(ns[1..]))
  }

  function ParseIndices(keys: seq<string>): Option<seq<nat>> {
    if keys == [] then Some([])
    else match ParseQuotedIndex(keys[0])
      case None => None
      case Some(n) => (match ParseIndices(keys[1..]) case None => None case Some(ns) => Some([n] + ns))
  }

  /** The indices among the children, ascending; none unless every child is an index. */
  function IndicesFrom(keys: seq<string>): seq<nat> {
    match ParseIndices(keys)
    case None => []
    case Some(ns) => Sort(ns)
  }

  function IndexPaths(prefix: Path, indices: seq<nat>): (r: seq<Path>)
    ensures |r| == |indices| && forall i :: 0 <= i < |r| ==> r[i] == prefix + [Quoted(indices[i])]
  {
    if indices == [] then [] else [prefix + [Quoted(indices[0])]] + IndexPaths(prefix, indices[1..])
  }

  function KeyPaths(prefix: Path, keys: seq<string>): (r: seq<Path>)
    ensures |r| == |keys| && forall i :: 0 <= i < |r| ==> r[i] == prefix + [keys[i]]
  {
    if keys == [] then [] else [prefix + [keys[0]]] + KeyPaths(prefix, keys[1..])
  }

  /** A row that is too short continues with undefined values. */
  function At(row: seq<Value>, column: nat): (v: Value)
    ensures v == (row + seq(column + 1, _ => Undefined))[column]
  {
    if column < |row| then row[column] else Undefined
  }

  /** One column of the matrix, by row name. */
  function Column(keys: seq<string>, rows: seq<seq<Value>>, column: nat): map<string, Value>
    requires |keys| == |rows|
    decreases keys
  {
    if keys == [] then map[]
    else
      var n := |keys| - 1;
      Column(keys[..n], rows[..n], column)[keys[n] := At(rows[n], column)]
  }

  /** One record for every column of the first row. */
  function Transposed(keys: seq<string>, rows: seq<seq<Value>>): seq<Value>
    requires |keys| == |rows| && rows != []
  {
    seq(|rows[0]|, column requires 0 <= column < |rows[0]| => Record(Column(keys, rows, column)))
  }

  // ----- The interpreter

  function LastName(path: Path): string {
    if path == [] then "<n/a>" else path[|path| - 1]
  }

  function PrefixErrors(r: Either<ConfigError, Value>, prefix: Path): Either<ConfigError, Value> {
    match r case Left(e) => Left(Prefixed(e, prefix)) case Right(v) => Right(v)
  }

  function MapValues(f: Value -> Either<ConfigError, Value>, prefix: Path): Value -> Either<ConfigError, Value> {
    v => PrefixErrors(f(v), prefix)
  }

  function LoadPrimitive(flat: Flat, prefix: Path, parse: Parser, split: bool): Outcome {
    match Apply(prefix, flat.patch)
    case Left(e) => Left(e)
    case Right(p) =>
      match flat.load(p, parse, split)
      case Left(e) => Left(e)
      case Right(vs) => if vs == [] then Left(MissingData([], NoValue(LastName(p)))) else Right(vs)
  }

  /** The patched prefix and its children. */
  function Children(flat: Flat, prefix: Path): Either<ConfigError, (Path, seq<string>)> {
    match Apply(prefix, flat.patch)
    case Left(e) => Left(e)
    case Right(p) => (match flat.enumerateChildren(p) case Left(e) => Left(e) case Right(keys) => Right((p, keys)))
  }

  function ZipOutcomes(prefix: Path, left: Outcome, right: Outcome, zip: (Value, Value) -> Value): Outcome {
    if left.Left? && right.Left? then Left(And(left.left, right.left))
    else if left.Left? then left
    else if right.Left? then right
    else ZipValues(prefix, left.right, right.right, zip)
  }

  function Loop(flat: Flat, prefix: Path, config: Config, split: bool): Outcome
    decreases config, 0, 0
  {
    match config
    case Constant(v) => Right([v])
    case Described(c) => Loop(flat, prefix, c, split)
    case Fail(message) => Left(MissingData(prefix, message))
    case Fallback(first, second, condition) =>
      (match Loop(flat, prefix, first, split)
       case Right(vs) => Right(vs)
       case Left(error1) =>
         if !condition(error1) then Left(error1)
         else match Loop(flat, prefix, second, split)
           case Right(vs) => Right(vs)
           case Left(error2) => Left(Or(error1, error2)))
    case Lazy(c) => Loop(flat, prefix, c, split)
    case MapOrFail(original, f) =>
      (match Loop(flat, prefix, original, split)
       case Left(e) => Left(e)
       case Right(vs) => Traverse(vs, MapValues(f, prefix)))
    case Nested(name, c) => Loop(flat, prefix + [name], c, split)
    case Primitive(parse) => LoadPrimitive(flat, prefix, parse, split)
    case Sequence(c) =>
      (match Children(flat, prefix)
       case Left(e) => Left(e)
       case Right((p, keys)) =>
         var indices := IndicesFrom(keys);
         if indices == [] then
           match Loop(flat, p, c, true)
           case Left(e) => Left(e)
           case Right(vs) => Right([List(vs)])
         else
           match LoopEach(flat, IndexPaths(prefix, indices), c, true)
           case Left(e) => Left(e)
           case Right(vss) => Right([List(Flatten(vss))]))
    case Table(c) =>
      (match Children(flat, prefix)
       case Left(e) => Left(e)
       case Right((p, keys)) =>
         match LoopEach(flat, KeyPaths(p, keys), c, split)
         case Left(e) => Left(e)
         case Right(rows) => if rows == [] then Right([Record(map[])]) else Right(Transposed(keys, rows)))
    case Zipped(l, r, zip) => ZipOutcomes(prefix, Loop(flat, prefix, l, split), Loop(flat, prefix, r, split), zip)
  }

  /** Loads the same configuration at several paths, up to the first error. */
  function LoopEach(flat: Flat, paths: seq<Path>, config: Config,
      split: bool): (r: Either<ConfigError, seq<seq<Value>>>)
    ensures r.Right? ==> |r.right| == |paths|
    decreases config, 1, |paths|
  {
    if paths == [] then Right([])
    else match Loop(flat, paths[0], config, split)
      case Left(e) => Left(e)
      case Right(vs) =>
        match LoopEach(flat, paths[1..], config, split)
        case Left(e) => Left(e)
        case Right(rest) => Right([vs] + rest)
  }

  /** Loading as a user does: the single value, at the root. */
  function Load(flat: Flat, config: Config): Either<ConfigError, Value> {
    match Loop(flat, [], config, false)
    case Left(e) => Left(e)
    case Right(vs) => if vs == [] then Left(MissingData([], Text("Expected a single value"))) else Right(vs[0])
  }

  // ----- Loading never yields an empty list

  lemma {:induction false} ZipElementsLength(ls: seq<Element>, rs: seq<Element>, zip: (Value, Value) -> Value)
    requires |ls| == |rs|
    ensures ZipElements(ls, rs, zip).Right? ==> |ZipElements(ls, rs, zip).right| == |ls|
    decreases ls
  {
    if ls == [] {
    } else {
      ZipElementsLength(ls[1..], rs[1..], zip);
    }
  }

  lemma {:induction false} LoopNonEmpty(flat: Flat, prefix: Path, config: Config, split: bool)
    ensures Loop(flat, prefix, config, split) != Right([])
    decreases config
  {
    match config
    case Constant(_) =>
    case Fail(_) =>
    case Primitive(_) =>
    case Described(c) => LoopNonEmpty(flat, prefix, c, split);
    case Lazy(c) => LoopNonEmpty(flat, prefix, c, split);
    case Fallback(first, second, _) =>
      LoopNonEmpty(flat, prefix, first, split);
      LoopNonEmpty(flat, prefix, second, split);
    case MapOrFail(original, _) => LoopNonEmpty(flat, prefix, original, split);
    case Nested(name, c) => LoopNonEmpty(flat, prefix + [name], c, split);
    case Sequence(_) =>
    case Table(c) =>
      var children := Children(flat, prefix);
      if children.Right? && children.right.1 != [] {
        LoopNonEmpty(flat, KeyPaths(children.right.0, children.right.1)[0], c, split);
      }
    case Zipped(l, r, zip) =>
      LoopNonEmpty(flat, prefix, l, split);
      LoopNonEmpty(flat, prefix, r, split);
      var a, b := Loop(flat, prefix, l, split), Loop(flat, prefix, r, split);
      if a.Right? && b.Right? {
        var x := Extend(MissingElement(prefix), MissingElement(prefix), Elements(a.right), Elements(b.right));
        ZipElementsLength(x.0, x.1, zip);
      }
  }
}
