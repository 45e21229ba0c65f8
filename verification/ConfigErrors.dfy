/** The errors of configuration loading: trees whose leaves know the path they concern. */
module ConfigErrors {
  import opened Options
  import opened Paths

  /** The cause for which a source is unavailable; errors only carry it along. */
  type SourceCause(==, !new)

  datatype Message =
    | Text(text: string)
    | NotInMap(pathString: string)
    | NotInPath(name: string)
    | ElementMissing(index: nat, path: string)
    | NoValue(name: string)

  datatype ConfigError =
    | And(left: ConfigError, right: ConfigError)
    | Or(left: ConfigError, right: ConfigError)
    | InvalidData(path: Path, message: Message)
    | MissingData(path: Path, message: Message)
    | SourceUnavailable(path: Path, message: Message, cause: SourceCause)
    | Unsupported(path: Path, message: Message)
  {
    predicate Binary() { And? || Or? }
  }

  datatype Either<+L, +R> = Left(left: L) | Right(right: R)

  // ----- Leaves

  ghost function Leaves(e: ConfigError): (s: seq<ConfigError>)
    ensures s != [] && forall i :: 0 <= i < |s| ==> !s[i].Binary()
  {
    match e
    case And(l, r) => Leaves(l) + Leaves(r)
    case Or(l, r) => Leaves(l) + Leaves(r)
    case _ => [e]
  }

  /** Every leaf concerns a path that extends the prefix. */
  ghost predicate Under(e: ConfigError, prefix: Path) {
    forall i :: 0 <= i < |Leaves(e)| ==> prefix <= Leaves(e)[i].path
  }

  predicate MissingOnly(e: ConfigError) {
    match e
    case And(l, r) => MissingOnly(l) && MissingOnly(r)
    case Or(l, r) => MissingOnly(l) && MissingOnly(r)
    case MissingData(_, _) => true
    case _ => false
  }

  ghost predicate AllMissing(s: seq<ConfigError>) {
    forall i :: 0 <= i < |s| ==> s[i].MissingData?
  }

  lemma AllMissingAppend(a: seq<ConfigError>, b: seq<ConfigError>)
    ensures AllMissing(a + b) <==> AllMissing(a) && AllMissing(b)
  {
    if AllMissing(a + b) {
      forall i | 0 <= i < |a| ensures a[i].MissingData? { assert (a + b)[i] == a[i]; }
      forall i | 0 <= i < |b| ensures b[i].MissingData? { assert (a + b)[|a| + i] == b[i]; }
    }
  }

  lemma {:induction false} MissingOnlyIff(e: ConfigError)
    ensures MissingOnly(e) <==> AllMissing(Leaves(e))
  {
    if e.Binary() {
      MissingOnlyIff(e.left);
      MissingOnlyIff(e.right);
      AllMissingAppend(Leaves(e.left), Leaves(e.right));
    } else {
      assert Leaves(e)[0] == e;
    }
  }

  lemma {:induction false} UnderBoth(e: ConfigError, prefix: Path)
    requires e.Binary()
    ensures Under(e, prefix) <==> Under(e.left, prefix) && Under(e.right, prefix)
  {
    var l, r := Leaves(e.left), Leaves(e.right);
    assert Leaves(e) == l + r;
    assert forall i :: 0 <= i < |l| ==> (l + r)[i] == l[i];
    assert forall i :: 0 <= i < |r| ==> (l + r)[|l| + i] == r[i];
  }

  lemma {:induction false} UnderOne(e: ConfigError, prefix: Path)
    requires !e.Binary()
    ensures Under(e, prefix) <==> prefix <= e.path
  {
    assert Leaves(e) == [e];
    if Under(e, prefix) { assert prefix <= Leaves(e)[0].path; }
  }

  lemma {:induction false} UnderShorter(e: ConfigError, prefix: Path, longer: Path)
    requires Under(e, longer) && prefix <= longer
    ensures Under(e, prefix)
  {
    forall i | 0 <= i < |Leaves(e)| ensures prefix <= Leaves(e)[i].path {
      assert longer <= Leaves(e)[i].path;
    }
  }

  function AtPath(e: ConfigError, path: Path): ConfigError
    requires !e.Binary()
  {
    match e
    case InvalidData(_, m) => InvalidData(path, m)
    case MissingData(_, m) => MissingData(path, m)
    case SourceUnavailable(_, m, c) => SourceUnavailable(path, m, c)
    case Unsupported(_, m) => Unsupported(path, m)
  }

  function Prefixed(e: ConfigError, prefix: Path): ConfigError {
    match e
    case And(l, r) => And(Prefixed(l, prefix), Prefixed(r, prefix))
    case Or(l, r) => Or(Prefixed(l, prefix), Prefixed(r, prefix))
    case InvalidData(p, m) => InvalidData(prefix + p, m)
    case MissingData(p, m) => MissingData(prefix + p, m)
    case SourceUnavailable(p, m, c) => SourceUnavailable(prefix + p, m, c)
    case Unsupported(p, m) => Unsupported(prefix + p, m)
  }

  /** Prefixing moves every leaf below the prefix and changes nothing else about it. */
  lemma {:induction false} PrefixedLeaves(e: ConfigError, prefix: Path, i: nat)
    requires i < |Leaves(e)|
    ensures |Leaves(Prefixed(e, prefix))| == |Leaves(e)|
    ensures Leaves(Prefixed(e, prefix))[i] == AtPath(Leaves(e)[i], prefix + Leaves(e)[i].path)
  {
    if e.Binary() {
      var l, r := Leaves(e.left), Leaves(e.right);
      PrefixedLeaves(e.left, prefix, if i < |l| then i else 0);
      PrefixedLeaves(e.right, prefix, if i < |l| then 0 else i - |l|);
    }
  }

  lemma {:induction false} PrefixedUnder(e: ConfigError, prefix: Path)
    ensures Under(Prefixed(e, prefix), prefix)
  {
    PrefixedLeaves(e, prefix, 0);
    forall i | 0 <= i < |Leaves(e)| ensures prefix <= Leaves(Prefixed(e, prefix))[i].path {
      PrefixedLeaves(e, prefix, i);
    }
  }

  lemma {:induction false} PrefixedMissingOnly(e: ConfigError, prefix: Path)
    ensures MissingOnly(Prefixed(e, prefix)) <==> MissingOnly(e)
  {
    if e.Binary() {
      PrefixedMissingOnly(e.left, prefix);
      PrefixedMissingOnly(e.right, prefix);
    }
  }

  /** What is left when that many segments are taken off every path. */
  ghost function Unprefixed(e: ConfigError, n: nat): ConfigError {
    match e
    case And(l, r) => And(Unprefixed(l, n), Unprefixed(r, n))
    case Or(l, r) => Or(Unprefixed(l, n), Unprefixed(r, n))
    case _ => AtPath(e, if n <= |e.path| then e.path[n..] else [])
  }

  /** Taking the prefix off again gives the error back, with its alternatives and conjunctions. */
  lemma {:induction false} PrefixedIsUndone(e: ConfigError, prefix: Path)
    ensures Unprefixed(Prefixed(e, prefix), |prefix|) == e
  {
    if e.Binary() {
      PrefixedIsUndone(e.left, prefix);
      PrefixedIsUndone(e.right, prefix);
    } else {
      assert (prefix + e.path)[|prefix|..] == e.path;
    }
  }

  lemma {:induction false} PrefixedTwice(e: ConfigError, inner: Path, outer: Path)
    ensures Prefixed(Prefixed(e, inner), outer) == Prefixed(e, outer + inner)
  {
    if e.Binary() {
      PrefixedTwice(e.left, inner, outer);
      PrefixedTwice(e.right, inner, outer);
    } else {
      assert outer + (inner + e.path) == (outer + inner) + e.path;
    }
  }

  // ----- The stack machine

  datatype Reducer<!C, !Z> = Reducer(
    andCase: (C, Z, Z) -> Z,
    orCase: (C, Z, Z) -> Z,
    invalidDataCase: (C, Path, Message) -> Z,
    missingDataCase: (C, Path, Message) -> Z,
    sourceUnavailableCase: (C, Path, Message, SourceCause) -> Z,
    unsupportedCase: (C, Path, Message) -> Z)

  function Fold<C, Z>(e: ConfigError, x: C, f: Reducer<C, Z>): Z {
    match e
    case And(l, r) => f.andCase(x, Fold(l, x, f), Fold(r, x, f))
    case Or(l, r) => f.orCase(x, Fold(l, x, f), Fold(r, x, f))
    case InvalidData(p, m) => f.invalidDataCase(x, p, m)
    case MissingData(p, m) => f.missingDataCase(x, p, m)
    case SourceUnavailable(p, m, c) => f.sourceUnavailableCase(x, p, m, c)
    case Unsupported(p, m) => f.unsupportedCase(x, p, m)
  }

  datatype Cell<Z> = AndCase | OrCase | Value(value: Z)

  /** What the first phase writes for one node. */
  function Emit<C, Z>(e: ConfigError, x: C, f: Reducer<C, Z>): Cell<Z> {
    if e.And? then AndCase else if e.Or? then OrCase else Value(Fold(e, x, f))
  }

  /** What the first phase writes for a whole tree, parents before children. */
  ghost function Emitted<C, Z>(e: ConfigError, x: C, f: Reducer<C, Z>): seq<Cell<Z>> {
    if e.Binary() then [Emit(e, x, f)] + (Emitted(e.left, x, f) + Emitted(e.right, x, f)) else [Emit(e, x, f)]
  }

  /** What it writes for the trees on a stack whose top is its last element. */
  ghost function EmittedAll<C, Z>(stack: seq<ConfigError>, x: C, f: Reducer<C, Z>): seq<Cell<Z>> {
    if stack == [] then []
    else Emitted(stack[|stack| - 1], x, f) + EmittedAll(stack[..|stack| - 1], x, f)
  }

  lemma {:induction false} EmittedPush<C, Z>(stack: seq<ConfigError>, e: ConfigError, x: C, f: Reducer<C, Z>)
    ensures EmittedAll(stack + [e], x, f) == Emitted(e, x, f) + EmittedAll(stack, x, f)
  {
    assert (stack + [e])[..|stack|] == stack;
  }

  function Kids(e: ConfigError): seq<ConfigError> {
    if e.Binary() then [e.right, e.left] else []
  }

  /** Writing the cell of the top and replacing it by its children leaves the whole output the same. */
  lemma {:induction false} EmitStep<C, Z>(stack: seq<ConfigError>, e: ConfigError, x: C, f: Reducer<C, Z>)
    ensures EmittedAll(stack + [e], x, f) == [Emit(e, x, f)] + EmittedAll(stack + Kids(e), x, f)
  {
    EmittedPush(stack, e, x, f);
    if e.Binary() {
      var l, r, s := Emitted(e.left, x, f), Emitted(e.right, x, f), EmittedAll(stack, x, f);
      assert stack + Kids(e) == stack + [e.right] + [e.left];
      EmittedPush(stack, e.right, x, f);
      EmittedPush(stack + [e.right], e.left, x, f);
      Reassociate(l, r, s);
      Reassociate([Emit(e, x, f)], l + r, s);
    } else {
      assert stack + Kids(e) == stack;
    }
  }

  datatype Machine<Z> = Underflow | Stack(values: seq<Z>)

  /** The second phase: consumes the cells from the last to the first. */
  ghost function Run<C, Z>(cells: seq<Cell<Z>>, acc: seq<Z>, x: C, f: Reducer<C, Z>): Machine<Z>
    decreases |cells|
  {
    if cells == [] then Stack(acc)
    else
      var n, rest := |acc|, cells[..|cells| - 1];
      match cells[|cells| - 1]
      case Value(v) => Run(rest, acc + [v], x, f)
      case AndCase =>
        if n < 2 then Underflow else Run(rest, acc[..n - 2] + [f.andCase(x, acc[n - 1], acc[n - 2])], x, f)
      case OrCase =>
        if n < 2 then Underflow else Run(rest, acc[..n - 2] + [f.orCase(x, acc[n - 1], acc[n - 2])], x, f)
  }

  lemma {:induction false} RunCell<C, Z>(before: seq<Cell<Z>>, cell: Cell<Z>, acc: seq<Z>, l: Z, r: Z, x: C,
      f: Reducer<C, Z>)
    ensures cell.Value? ==> Run(before + [cell], acc, x, f) == Run(before, acc + [cell.value], x, f)
    ensures cell == AndCase ==> Run(before + [cell], acc + [r] + [l], x, f) == Run(before, acc + [f.andCase(x, l, r)], x, f)
    ensures cell == OrCase ==> Run(before + [cell], acc + [r] + [l], x, f) == Run(before, acc + [f.orCase(x, l, r)], x, f)
  {
    assert (before + [cell])[..|before|] == before;
    assert (acc + [r] + [l])[..|acc|] == acc;
  }

  /** Running the cells of a tree after others pushes its fold. */
  lemma {:induction false} RunTree<C, Z>(before: seq<Cell<Z>>, e: ConfigError, acc: seq<Z>, x: C, f: Reducer<C, Z>)
    ensures Run(before + Emitted(e, x, f), acc, x, f) == Run(before, acc + [Fold(e, x, f)], x, f)
    decreases e
  {
    var z, cell := Fold(e, x, f), Emit(e, x, f);
    if e.Binary() {
      var a, b := Emitted(e.left, x, f), Emitted(e.right, x, f);
      var l, r := Fold(e.left, x, f), Fold(e.right, x, f);
      assert before + Emitted(e, x, f) == ((before + [cell]) + a) + b;
      RunTree((before + [cell]) + a, e.right, acc, x, f);
      RunTree(before + [cell], e.left, acc + [r], x, f);
      RunCell(before, cell, acc, l, r, x, f);
    } else {
      RunCell(before, cell, acc, z, z, x, f);
    }
  }

  /** The two-phase machine computes the structural fold; neither phase can run dry. */
  method ReduceWithContext<C, Z>(self: ConfigError, x: C, f: Reducer<C, Z>) returns (z: Z)
    ensures z == Fold(self, x, f)
  {
    var input := [self];
    var output: seq<Cell<Z>> := [];
    EmittedPush([], self, x, f);
    assert [] + [self] == input && EmittedAll([], x, f) == [];
    while |input| > 0
      invariant output + EmittedAll(input, x, f) == Emitted(self, x, f)
      decreases |EmittedAll(input, x, f)|
    {
      var error, rest := input[|input| - 1], input[..|input| - 1];
      assert input == rest + [error];
      var cell := Emit(error, x, f);
      ghost var next := rest + Kids(error);
      EmitStep(rest, error, x, f);
      Reassociate(output, [cell], EmittedAll(next, x, f));
      match error {
        case And(left, right) => input := rest + [right, left];
        case Or(left, right) => input := rest + [right, left];
        case _ => input := rest + [];
      }
      assert input == next;
      output := output + [cell];
    }
    z := RunMachine(self, output, x, f);
  }

  method RunMachine<C, Z>(ghost self: ConfigError, cells: seq<Cell<Z>>, x: C, f: Reducer<C, Z>) returns (z: Z)
    requires cells == Emitted(self, x, f)
    ensures z == Fold(self, x, f)
  {
    var output := cells;
    var accumulator: seq<Z> := [];
    RunTree([], self, [], x, f);
    assert [] + cells == cells;
    while |output| > 0
      invariant Run(output, accumulator, x, f) == Stack([Fold(self, x, f)])
      decreases |output|
    {
      var either, rest, n := output[|output| - 1], output[..|output| - 1], |accumulator|;
      match either {
        case AndCase =>
          var left, right := accumulator[n - 1], accumulator[n - 2];
          accumulator := accumulator[..n - 2] + [f.andCase(x, left, right)];
        case OrCase =>
          var left, right := accumulator[n - 1], accumulator[n - 2];
          accumulator := accumulator[..n - 2] + [f.orCase(x, left, right)];
        case Value(v) =>
          accumulator := accumulator + [v];
      }
      output := rest;
    }
    return accumulator[|accumulator| - 1];
  }

  function MissingOnlyReducer(): Reducer<(), bool> {
    Reducer((_, l, r) => l && r, (_, l, r) => l && r, (_, _, _) => false, (_, _, _) => true,
            (_, _, _, _) => false, (_, _, _) => false)
  }

  lemma {:induction false} MissingOnlyIsFold(e: ConfigError)
    ensures Fold(e, (), MissingOnlyReducer()) == MissingOnly(e)
  {
    if e.Binary() {
      MissingOnlyIsFold(e.left);
      MissingOnlyIsFold(e.right);
    }
  }

  /** Whether every leaf of the error is about missing data. */
  method IsMissingDataOnly(self: ConfigError) returns (b: bool)
    ensures b <==> AllMissing(Leaves(self))
  {
    b := ReduceWithContext(self, (), MissingOnlyReducer());
    MissingOnlyIsFold(self);
    MissingOnlyIff(self);
  }
}
