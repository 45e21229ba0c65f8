/**
  The cause algebra: full descriptions of failures, the stack machines that traverse them, and the
  getters and filters built on those machines.
 */
module Causes {
  import opened Options

  /** Defects, fiber identifiers and annotations are opaque values. */
  type Unknown(==, !new)

  datatype Cause<E> =
    | Empty
    | Fail(error: E)
    | Die(defect: Unknown)
    | Interrupt(fiberId: Unknown)
    | Annotated(cause: Cause<E>, annotation: Unknown)
    | Sequential(left: Cause<E>, right: Cause<E>)
    | Parallel(left: Cause<E>, right: Cause<E>)
  {
    predicate Binary() { Sequential? || Parallel? }
    predicate Leaf() { Fail? || Die? || Interrupt? }
  }

  // ----- Traversals

  /** All nodes, parents before children and left before right. */
  ghost function Nodes<E>(c: Cause<E>): seq<Cause<E>> {
    match c
    case Annotated(d, _) => [c] + Nodes(d)
    case Sequential(l, r) => [c] + (Nodes(l) + Nodes(r))
    case Parallel(l, r) => [c] + (Nodes(l) + Nodes(r))
    case _ => [c]
  }

  /** The nodes below a stack whose top is its last element, in the order they are popped. */
  ghost function NodesOf<E>(stack: seq<Cause<E>>): seq<Cause<E>> {
    if stack == [] then [] else Nodes(stack[|stack| - 1]) + NodesOf(stack[..|stack| - 1])
  }

  /** What a traversal pushes for a node, the child to visit first last. */
  function Kids<E>(c: Cause<E>): seq<Cause<E>> {
    match c
    case Annotated(d, _) => [d]
    case Sequential(l, r) => [r, l]
    case Parallel(l, r) => [r, l]
    case _ => []
  }

  lemma {:induction false} NodesPushed<E>(stack: seq<Cause<E>>, c: Cause<E>)
    ensures NodesOf(stack + [c]) == Nodes(c) + NodesOf(stack)
  {
    assert (stack + [c])[..|stack|] == stack;
  }

  /** Replacing the top of a stack by its children visits it first and the rest as before. */
  lemma {:induction false} Visit<E>(stack: seq<Cause<E>>, c: Cause<E>)
    ensures NodesOf(stack + [c]) == [c] + NodesOf(stack + Kids(c))
  {
    NodesPushed(stack, c);
    if c.Binary() {
      VisitPair(stack, c);
      Reassociate([c], Nodes(c.left) + Nodes(c.right), NodesOf(stack));
    } else if c.Annotated? {
      NodesPushed(stack, c.cause);
      Reassociate([c], Nodes(c.cause), NodesOf(stack));
    } else {
      assert stack + Kids(c) == stack;
    }
  }

  lemma PushTwo<T>(stack: seq<T>, a: T, b: T)
    ensures stack + [a, b] == stack + [a] + [b]
  {}

  lemma {:induction false} VisitPair<E>(stack: seq<Cause<E>>, c: Cause<E>)
    requires c.Binary()
    ensures NodesOf(stack + Kids(c)) == Nodes(c.left) + Nodes(c.right) + NodesOf(stack)
  {
    PushTwo(stack, c.right, c.left);
    NodesPushed(stack, c.right);
    NodesPushed(stack + [c.right], c.left);
  }

  ghost function FoldNodes<E, Z>(nodes: seq<Cause<E>>, acc: Z, pf: (Z, Cause<E>) -> Option<Z>): Z {
    if nodes == [] then acc else FoldNodes(nodes[1..], pf(acc, nodes[0]).GetOr(acc), pf)
  }

  lemma {:induction false} FoldStep<E, Z>(
      stack: seq<Cause<E>>, c: Cause<E>, acc: Z, pf: (Z, Cause<E>) -> Option<Z>)
    ensures FoldNodes(NodesOf(stack + [c]), acc, pf) ==
      FoldNodes(NodesOf(stack + Kids(c)), pf(acc, c).GetOr(acc), pf)
    ensures |NodesOf(stack + Kids(c))| < |NodesOf(stack + [c])|
  {
    Visit(stack, c);
    assert ([c] + NodesOf(stack + Kids(c)))[1..] == NodesOf(stack + Kids(c));
  }

  /** Left fold over the nodes in preorder. */
  method Reduce<E, Z>(self: Cause<E>, zero: Z, pf: (Z, Cause<E>) -> Option<Z>) returns (accumulator: Z)
    ensures accumulator == FoldNodes(Nodes(self), zero, pf)
  {
    accumulator := zero;
    var cause := Some(self);
    var causes: seq<Cause<E>> := [];
    ghost var todo := [self];
    NodesPushed([], self);
    assert [] + [self] == todo && Nodes(self) + NodesOf([]) == Nodes(self);
    while cause != None
      invariant todo == if cause == None then [] else causes + [cause.value]
      invariant FoldNodes(Nodes(self), zero, pf) == FoldNodes(NodesOf(todo), accumulator, pf)
      decreases |NodesOf(todo)|
    {
      FoldStep(causes, cause.value, accumulator, pf);
      todo := causes + Kids(cause.value);
      accumulator := pf(accumulator, cause.value).GetOr(accumulator);
      match cause.value {
        case Sequential(left, right) =>
          PushTwo(causes, right, left);
          causes := causes + [right];
          cause := Some(left);
        case Parallel(left, right) =>
          PushTwo(causes, right, left);
          causes := causes + [right];
          cause := Some(left);
        case Annotated(c, _) =>
          cause := Some(c);
        case _ =>
          cause := None;
      }
      if cause == None && |causes| > 0 {
        cause := Some(causes[|causes| - 1]);
        causes := causes[..|causes| - 1];
      }
    }
  }

  ghost function FirstHit<E, Z>(nodes: seq<Cause<E>>, pf: Cause<E> -> Option<Z>): Option<Z> {
    if nodes == [] then None else if pf(nodes[0]).Some? then pf(nodes[0]) else FirstHit(nodes[1..], pf)
  }

  /** The first node in preorder that the partial function accepts. */
  method Find<E, Z>(self: Cause<E>, pf: Cause<E> -> Option<Z>) returns (hit: Option<Z>)
    ensures hit == FirstHit(Nodes(self), pf)
  {
    var stack := [self];
    NodesPushed([], self);
    assert [] + [self] == stack && Nodes(self) + NodesOf([]) == Nodes(self);
    while |stack| > 0
      invariant FirstHit(Nodes(self), pf) == FirstHit(NodesOf(stack), pf)
      decreases |NodesOf(stack)|
    {
      var item, rest := stack[|stack| - 1], stack[..|stack| - 1];
      assert stack == rest + [item];
      Visit(rest, item);
      assert ([item] + NodesOf(rest + Kids(item)))[1..] == NodesOf(rest + Kids(item));
      var option := pf(item);
      if option.Some? {
        return option;
      }
      match item {
        case Sequential(left, right) => stack := rest + [right, left];
        case Parallel(left, right) => stack := rest + [right, left];
        case Annotated(cause, _) => stack := rest + [cause];
        case _ => stack := rest + [];
      }
    }
    return None;
  }

  // ----- Structural fold

  datatype Reducer<!C, !E, !Z> = Reducer(
    emptyCase: C -> Z,
    failCase: (C, E) -> Z,
    dieCase: (C, Unknown) -> Z,
    interruptCase: (C, Unknown) -> Z,
    annotatedCase: (C, Z, Unknown) -> Z,
    sequentialCase: (C, Z, Z) -> Z,
    parallelCase: (C, Z, Z) -> Z)

  function Fold<C, E, Z>(c: Cause<E>, x: C, f: Reducer<C, E, Z>): Z {
    match c
    case Empty => f.emptyCase(x)
    case Fail(e) => f.failCase(x, e)
    case Die(d) => f.dieCase(x, d)
    case Interrupt(i) => f.interruptCase(x, i)
    case Annotated(d, a) => f.annotatedCase(x, Fold(d, x, f), a)
    case Sequential(l, r) => f.sequentialCase(x, Fold(l, x, f), Fold(r, x, f))
    case Parallel(l, r) => f.parallelCase(x, Fold(l, x, f), Fold(r, x, f))
  }

  datatype Cell<Z> = SequentialCase | ParallelCase | AnnotatedCase(annotation: Unknown) | Value(value: Z)

  /** What `reduceWithContext` writes for one node. */
  function Emit<C, E, Z>(c: Cause<E>, x: C, f: Reducer<C, E, Z>): Cell<Z> {
    match c
    case Empty => Value(f.emptyCase(x))
    case Fail(e) => Value(f.failCase(x, e))
    case Die(d) => Value(f.dieCase(x, d))
    case Interrupt(i) => Value(f.interruptCase(x, i))
    case Annotated(_, a) => AnnotatedCase(a)
    case Sequential(_, _) => SequentialCase
    case Parallel(_, _) => ParallelCase
  }

  ghost function Emitted<C, E, Z>(nodes: seq<Cause<E>>, x: C, f: Reducer<C, E, Z>): seq<Cell<Z>> {
    seq(|nodes|, i requires 0 <= i < |nodes| => Emit(nodes[i], x, f))
  }

  lemma EmittedAppend<C, E, Z>(m: seq<Cause<E>>, n: seq<Cause<E>>, x: C, f: Reducer<C, E, Z>)
    ensures Emitted(m + n, x, f) == Emitted(m, x, f) + Emitted(n, x, f)
  {}

  datatype Machine<Z> = Underflow | Stack(values: seq<Z>)

  /** Consumes the cells from the last to the first on a stack whose top is its last element. */
  ghost function Run<C, E, Z>(cells: seq<Cell<Z>>, acc: seq<Z>, x: C, f: Reducer<C, E, Z>): Machine<Z>
    decreases |cells|
  {
    if cells == [] then Stack(acc)
    else
      var n, rest := |acc|, cells[..|cells| - 1];
      match cells[|cells| - 1]
      case Value(v) => Run(rest, acc + [v], x, f)
      case AnnotatedCase(a) =>
        if n < 1 then Underflow else Run(rest, acc[..n - 1] + [f.annotatedCase(x, acc[n - 1], a)], x, f)
      case SequentialCase =>
        if n < 2 then Underflow
        else Run(rest, acc[..n - 2] + [f.sequentialCase(x, acc[n - 1], acc[n - 2])], x, f)
      case ParallelCase =>
        if n < 2 then Underflow
        else Run(rest, acc[..n - 2] + [f.parallelCase(x, acc[n - 1], acc[n - 2])], x, f)
  }

  lemma {:induction false} RunLast<C, E, Z>(
      cells: seq<Cell<Z>>, cell: Cell<Z>, acc: seq<Z>, x: C, f: Reducer<C, E, Z>)
    ensures (cells + [cell])[..|cells + [cell]| - 1] == cells && (cells + [cell])[|cells|] == cell
  {}

  /** Running the cells of a cause after others pushes its fold. */
  lemma {:induction false} RunNodes<C, E, Z>(
      before: seq<Cell<Z>>, c: Cause<E>, acc: seq<Z>, x: C, f: Reducer<C, E, Z>)
    ensures Run(before + Emitted(Nodes(c), x, f), acc, x, f) == Run(before, acc + [Fold(c, x, f)], x, f)
    decreases c
  {
    var head := before + [Emit(c, x, f)];
    RunLast(before, Emit(c, x, f), acc, x, f);
    match c
    case Annotated(d, a) =>
      EmittedAppend([c], Nodes(d), x, f);
      assert before + Emitted(Nodes(c), x, f) == head + Emitted(Nodes(d), x, f);
      RunNodes(head, d, acc, x, f);
      assert (acc + [Fold(d, x, f)])[..|acc|] == acc;
    case Sequential(l, r) =>
      RunPair(before, c, l, r, acc, x, f);
      assert (acc + [Fold(r, x, f)] + [Fold(l, x, f)])[..|acc|] == acc;
    case Parallel(l, r) =>
      RunPair(before, c, l, r, acc, x, f);
      assert (acc + [Fold(r, x, f)] + [Fold(l, x, f)])[..|acc|] == acc;
    case _ =>
      assert before + Emitted(Nodes(c), x, f) == head;
  }

  lemma {:induction false} RunPair<C, E, Z>(
      before: seq<Cell<Z>>, c: Cause<E>, l: Cause<E>, r: Cause<E>, acc: seq<Z>, x: C, f: Reducer<C, E, Z>)
    requires c.Binary() && c.left == l && c.right == r
    ensures Run(before + Emitted(Nodes(c), x, f), acc, x, f) ==
      Run(before + [Emit(c, x, f)], acc + [Fold(r, x, f)] + [Fold(l, x, f)], x, f)
    decreases c, 0
  {
    var head := before + [Emit(c, x, f)];
    EmittedAppend([c], Nodes(l) + Nodes(r), x, f);
    EmittedAppend(Nodes(l), Nodes(r), x, f);
    assert before + Emitted(Nodes(c), x, f) == head + Emitted(Nodes(l), x, f) + Emitted(Nodes(r), x, f);
    RunNodes(head + Emitted(Nodes(l), x, f), r, acc, x, f);
    RunNodes(head, l, acc + [Fold(r, x, f)], x, f);
  }

  lemma {:induction false} EmitStep<C, E, Z>(
      output: seq<Cell<Z>>, stack: seq<Cause<E>>, c: Cause<E>, x: C, f: Reducer<C, E, Z>)
    ensures output + Emitted(NodesOf(stack + [c]), x, f) ==
      output + [Emit(c, x, f)] + Emitted(NodesOf(stack + Kids(c)), x, f)
    ensures |NodesOf(stack + Kids(c))| < |NodesOf(stack + [c])|
  {
    Visit(stack, c);
    EmittedAppend([c], NodesOf(stack + Kids(c)), x, f);
    assert Emitted([c], x, f) == [Emit(c, x, f)];
  }

  /** The two-phase stack machine computes the structural fold; neither phase can run dry. */
  method ReduceWithContext<C, E, Z>(self: Cause<E>, x: C, f: Reducer<C, E, Z>) returns (z: Z)
    ensures z == Fold(self, x, f)
  {
    var input := [self];
    var output: seq<Cell<Z>> := [];
    NodesPushed([], self);
    assert [] + [self] == input && Nodes(self) + NodesOf([]) == Nodes(self);
    while |input| > 0
      invariant output + Emitted(NodesOf(input), x, f) == Emitted(Nodes(self), x, f)
      decreases |NodesOf(input)|
    {
      var cause, rest := input[|input| - 1], input[..|input| - 1];
      assert input == rest + [cause];
      EmitStep(output, rest, cause, x, f);
      match cause {
        case Annotated(c, _) => input := rest + [c];
        case Sequential(left, right) => input := rest + [right, left];
        case Parallel(left, right) => input := rest + [right, left];
        case _ => input := rest + [];
      }
      output := output + [Emit(cause, x, f)];
    }
    z := RunMachine(self, output, x, f);
  }

  method RunMachine<C, E, Z>(ghost self: Cause<E>, cells: seq<Cell<Z>>, x: C, f: Reducer<C, E, Z>) returns (z: Z)
    requires cells == Emitted(Nodes(self), x, f)
    ensures z == Fold(self, x, f)
  {
    var output := cells;
    var accumulator: seq<Z> := [];
    RunNodes([], self, [], x, f);
    assert [] + cells == cells;
    while |output| > 0
      invariant Run(output, accumulator, x, f) == Stack([Fold(self, x, f)])
      decreases |output|
    {
      var either, rest, n := output[|output| - 1], output[..|output| - 1], |accumulator|;
      match either {
        case SequentialCase =>
          var left, right := accumulator[n - 1], accumulator[n - 2];
          accumulator := accumulator[..n - 2] + [f.sequentialCase(x, left, right)];
        case ParallelCase =>
          var left, right := accumulator[n - 1], accumulator[n - 2];
          accumulator := accumulator[..n - 2] + [f.parallelCase(x, left, right)];
        case AnnotatedCase(a) =>
          accumulator := accumulator[..n - 1] + [f.annotatedCase(x, accumulator[n - 1], a)];
        case Value(v) =>
          accumulator := accumulator + [v];
      }
      output := rest;
    }
    return accumulator[|accumulator| - 1];
  }
}
