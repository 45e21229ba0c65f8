/**
  Evaluation of causes into the sequence of sets of values that fail together, on which hashing and
  equality of causes rest.
 */
module CauseEvaluation {
  import SP = SeriesParallel
  import opened Options
  import opened Causes
  import opened CauseFilters

  type Layers = seq<multiset<Unknown>>

  // ----- Meaning

  ghost function Denote(c: Cause<Unknown>): SP.Tree<Unknown> {
    match c
    case Empty => SP.Nil
    case Fail(e) => SP.Leaf(e)
    case Die(d) => SP.Leaf(d)
    case Interrupt(i) => SP.Leaf(i)
    case Annotated(d, _) => Denote(d)
    case Sequential(l, r) => SP.Seq(Denote(l), Denote(r))
    case Parallel(l, r) => SP.Par(Denote(l), Denote(r))
  }

  ghost function Rounds(c: Cause<Unknown>): Layers {
    SP.Rounds(Denote(c), [])
  }

  /** Rounds of causes that are evaluated together. */
  ghost function RoundsOf(cs: seq<Cause<Unknown>>): Layers {
    if cs == [] then [] else SP.Overlay(Rounds(cs[0]), RoundsOf(cs[1..]))
  }

  lemma {:induction false} RoundsOfAppend(xs: seq<Cause<Unknown>>, ys: seq<Cause<Unknown>>)
    ensures RoundsOf(xs + ys) == SP.Overlay(RoundsOf(xs), RoundsOf(ys))
  {
    if xs == [] {
      assert xs + ys == ys;
      SP.OverlayNil(RoundsOf(ys));
    } else {
      assert (xs + ys)[1..] == xs[1..] + ys;
      RoundsOfAppend(xs[1..], ys);
      SP.OverlayAssociative(Rounds(xs[0]), RoundsOf(xs[1..]), RoundsOf(ys));
    }
  }

  lemma {:induction false} RoundsOfOne(c: Cause<Unknown>)
    ensures RoundsOf([c]) == Rounds(c)
  {
    assert [c][1..] == [];
    SP.OverlayNil(Rounds(c));
  }

  /** Pushing on, and popping from, a stack whose top is its last element. */
  lemma {:induction false} Push(stack: seq<Cause<Unknown>>, c: Cause<Unknown>)
    ensures RoundsOf(stack + [c]) == SP.Overlay(Rounds(c), RoundsOf(stack))
    ensures WeightOf(stack + [c]) == Weight(c) + WeightOf(stack)
  {
    RoundsOfAppend(stack, [c]);
    RoundsOfOne(c);
    SP.OverlayCommutative(RoundsOf(stack), Rounds(c));
    WeightOfAppend(stack, [c]);
  }

  lemma {:induction false} Pop(stack: seq<Cause<Unknown>>)
    requires stack != []
    ensures var top, rest := stack[|stack| - 1], stack[..|stack| - 1];
      RoundsOf(stack) == SP.Overlay(Rounds(top), RoundsOf(rest)) && WeightOf(stack) == Weight(top) + WeightOf(rest)
  {
    assert stack == stack[..|stack| - 1] + [stack[|stack| - 1]];
    Push(stack[..|stack| - 1], stack[|stack| - 1]);
  }

  lemma {:induction false} Prepend(c: Cause<Unknown>, cs: seq<Cause<Unknown>>)
    ensures RoundsOf([c] + cs) == SP.Overlay(Rounds(c), RoundsOf(cs))
    ensures WeightOf([c] + cs) == Weight(c) + WeightOf(cs)
  {
    assert ([c] + cs)[1..] == cs;
  }

  // ----- Weights

  function Weight(c: Cause<Unknown>): (w: nat)
    ensures w >= 1
  {
    match c
    case Annotated(d, _) => 1 + Weight(d)
    case Parallel(l, r) => 1 + Weight(l) + Weight(r)
    case Sequential(l, r) => SP.ProductPositive(Weight(l), 2 + Weight(r)); Weight(l) * (2 + Weight(r))
    case _ => 1
  }

  function WeightOf(cs: seq<Cause<Unknown>>): nat {
    if cs == [] then 0 else Weight(cs[0]) + WeightOf(cs[1..])
  }

  lemma {:induction false} WeightOfAppend(xs: seq<Cause<Unknown>>, ys: seq<Cause<Unknown>>)
    ensures WeightOf(xs + ys) == WeightOf(xs) + WeightOf(ys)
  {
    if xs == [] {
      assert xs + ys == ys;
    } else {
      assert (xs + ys)[1..] == xs[1..] + ys;
      WeightOfAppend(xs[1..], ys);
    }
  }

  // ----- Rewriting

  /** What `evaluateCause` replaces a `Sequential` with when its left operand is not a leaf. */
  function Rewrite(left: Cause<Unknown>, right: Cause<Unknown>): Cause<Unknown>
    requires !left.Leaf()
  {
    match left
    case Empty => right
    case Sequential(l, r) => Sequential(l, Sequential(r, right))
    case Parallel(l, r) => Parallel(Sequential(l, right), Sequential(r, right))
    case Annotated(c, _) => Sequential(c, right)
  }

  lemma {:induction false} RewriteKeepsRounds(left: Cause<Unknown>, right: Cause<Unknown>)
    requires !left.Leaf()
    ensures Rounds(Rewrite(left, right)) == Rounds(Sequential(left, right))
  {
    assert Denote(Sequential(left, right)) == SP.Seq(Denote(left), Denote(right));
    match left
    case Empty =>
      SP.RewritesKeepRounds(SP.Nil, SP.Nil, Denote(right), []);
    case Sequential(l, r) =>
      assert Denote(Sequential(r, right)) == SP.Seq(Denote(r), Denote(right));
      SP.RewritesKeepRounds(Denote(l), Denote(r), Denote(right), []);
    case Parallel(l, r) =>
      assert Denote(Sequential(l, right)) == SP.Seq(Denote(l), Denote(right));
      assert Denote(Sequential(r, right)) == SP.Seq(Denote(r), Denote(right));
      SP.RewritesKeepRounds(Denote(l), Denote(r), Denote(right), []);
    case Annotated(c, _) =>
      assert Denote(left) == Denote(c);
  }

  lemma {:induction false} DistributingLosesWeight(l: Cause<Unknown>, m: Cause<Unknown>, r: Cause<Unknown>)
    ensures Weight(Parallel(Sequential(l, r), Sequential(m, r))) < Weight(Sequential(Parallel(l, m), r))
  {
    var a, b, c := Weight(l), Weight(m), Weight(r);
    assert Weight(Sequential(Parallel(l, m), r)) == (1 + a + b) * (2 + c);
    assert Weight(Parallel(Sequential(l, r), Sequential(m, r))) == 1 + a * (2 + c) + b * (2 + c);
    SP.DistributeLosesWeight(a, b, c);
  }

  lemma {:induction false} ReassociatingLosesWeight(l: Cause<Unknown>, m: Cause<Unknown>, r: Cause<Unknown>)
    ensures Weight(Sequential(l, Sequential(m, r))) < Weight(Sequential(Sequential(l, m), r))
  {
    var a, b, c := Weight(l), Weight(m), Weight(r);
    assert Weight(Sequential(l, Sequential(m, r))) == a * (2 + b * (2 + c));
    assert Weight(Sequential(Sequential(l, m), r)) == (a * (2 + b)) * (2 + c);
    SP.ReassociateLosesWeight(a, b, c);
  }

  lemma {:induction false} UnannotatingLosesWeight(l: Cause<Unknown>, note: Unknown, r: Cause<Unknown>)
    ensures Weight(Sequential(l, r)) < Weight(Sequential(Annotated(l, note), r))
  {
    var a, c := Weight(l), 2 + Weight(r);
    assert Weight(Sequential(Annotated(l, note), r)) == (1 + a) * c;
    SP.Distribute(1, a, c);
  }

  /** Each rewrite loses weight, although one of them copies its right operand. */
  lemma {:induction false} RewriteLosesWeight(left: Cause<Unknown>, right: Cause<Unknown>)
    requires !left.Leaf()
    ensures Weight(Rewrite(left, right)) < Weight(Sequential(left, right))
  {
    match left
    case Empty =>
    case Sequential(l, r) => ReassociatingLosesWeight(l, r, right);
    case Parallel(l, r) => DistributingLosesWeight(l, r, right);
    case Annotated(c, note) => UnannotatingLosesWeight(c, note, right);
  }

  // ----- One step

  ghost function Values(m: multiset<Unknown>): set<Unknown> {
    set x | x in m
  }

  function ValueOf(c: Cause<Unknown>): Unknown
    requires c.Leaf()
  {
    match c
    case Fail(e) => e
    case Die(d) => d
    case Interrupt(i) => i
  }

  lemma {:induction false} LeafRounds(c: Cause<Unknown>, r: Cause<Unknown>)
    requires c.Leaf()
    ensures Rounds(c) == SP.Pend(multiset{ValueOf(c)}, [])
    ensures Rounds(Sequential(c, r)) == SP.Pend(multiset{ValueOf(c)}, Rounds(r))
    ensures Weight(Sequential(c, r)) == 2 + Weight(r)
  {
    assert Rounds(Sequential(c, r)) == SP.Rounds(Denote(c), Rounds(r));
  }

  /** The values of the first round, and the causes whose rounds together are all later rounds. */
  method EvaluateCause(self: Cause<Unknown>)
      returns (parallel: set<Unknown>, sequential: seq<Cause<Unknown>>)
    ensures parallel == Values(SP.At(Rounds(self), 0))
    ensures Rounds(self) == SP.Pend(SP.At(Rounds(self), 0), RoundsOf(sequential))
    ensures sequential != [] ==> parallel != {}
    ensures WeightOf(sequential) < Weight(self)
  {
    var cause := self;
    var stack: seq<Cause<Unknown>> := [];
    parallel, sequential := {}, [];
    ghost var m: multiset<Unknown> := multiset{};
    SP.OwedStart(Rounds(self));
    while true
      invariant Rounds(self) == SP.Owed(Rounds(cause), RoundsOf(stack), m, RoundsOf(sequential))
      invariant parallel == Values(m)
      invariant sequential != [] ==> parallel != {} || cause.Leaf()
      invariant Weight(cause) + WeightOf(stack) + WeightOf(sequential) <= Weight(self)
      decreases Weight(cause) + WeightOf(stack)
    {
      if cause.Empty? || cause.Leaf() {
        var found := if cause.Empty? then {} else {ValueOf(cause)};
        ghost var q := if cause.Empty? then multiset{} else multiset{ValueOf(cause)};
        Finished(cause, stack, m, RoundsOf(sequential), q);
        m := m + q;
        parallel := parallel + found;
        if |stack| == 0 {
          return;
        }
        Pop(stack);
        var top, rest := stack[|stack| - 1], stack[..|stack| - 1];
        cause, stack := top, rest;
      } else if cause.Annotated? {
        cause := cause.cause;
      } else if cause.Parallel? {
        SP.OwedFork(Rounds(cause.left), Rounds(cause.right), RoundsOf(stack), m, RoundsOf(sequential));
        Push(stack, cause.right);
        stack := stack + [cause.right];
        cause := cause.left;
      } else if cause.left.Leaf() {
        LeafRounds(cause.left, cause.right);
        SP.OwedDefer(multiset{ValueOf(cause.left)}, Rounds(cause.right), RoundsOf(stack), m, RoundsOf(sequential));
        Prepend(cause.right, sequential);
        sequential := [cause.right] + sequential;
        cause := cause.left;
      } else {
        RewriteKeepsRounds(cause.left, cause.right);
        RewriteLosesWeight(cause.left, cause.right);
        match cause.left {
          case Empty => cause := cause.right;
          case Sequential(l, r) => cause := Sequential(l, Sequential(r, cause.right));
          case Parallel(l, r) => cause := Parallel(Sequential(l, cause.right), Sequential(r, cause.right));
          case Annotated(c, _) => cause := Sequential(c, cause.right);
        }
      }
    }
  }

  /** A childless node is done: its values are collected and the top of the stack is next. */
  lemma {:induction false} Finished(c: Cause<Unknown>, stack: seq<Cause<Unknown>>, m: multiset<Unknown>,
                                    later: Layers, q: multiset<Unknown>)
    requires c.Empty? || c.Leaf()
    requires q == if c.Empty? then multiset{} else multiset{ValueOf(c)}
    ensures Values(m + q) == Values(m) + if c.Empty? then {} else {ValueOf(c)}
    ensures stack == [] ==> SP.Owed(Rounds(c), RoundsOf(stack), m, later) == SP.Pend(m + q, later)
    ensures stack != [] ==>
      SP.Owed(Rounds(c), RoundsOf(stack), m, later) ==
      SP.Owed(Rounds(stack[|stack| - 1]), RoundsOf(stack[..|stack| - 1]), m + q, later)
  {
    if c.Leaf() { LeafRounds(c, Empty); }
    if stack == [] {
      assert c.Empty? ==> m + q == m;
      SP.OwedEnd(q, m, later);
    } else {
      Pop(stack);
      var top, rest := Rounds(stack[|stack| - 1]), RoundsOf(stack[..|stack| - 1]);
      if c.Empty? {
        SP.OwedSkip(top, rest, m, later);
        assert m + q == m;
      } else {
        SP.OwedCollect(q, top, rest, m, later);
      }
    }
  }

  // ----- Flattening

  /** All causes take a step; the values of their first rounds are collected in one set. */
  method EvaluateAll(causes: seq<Cause<Unknown>>)
      returns (parallel: set<Unknown>, sequential: seq<Cause<Unknown>>)
    ensures parallel == Values(SP.At(RoundsOf(causes), 0))
    ensures RoundsOf(causes) == SP.Pend(SP.At(RoundsOf(causes), 0), RoundsOf(sequential))
    ensures sequential != [] ==> parallel != {}
    ensures causes != [] ==> WeightOf(sequential) < WeightOf(causes)
  {
    parallel, sequential := {}, [];
    for k := 0 to |causes|
      invariant Evaluated(causes[..k], parallel, sequential)
      invariant WeightOf(sequential) + k <= WeightOf(causes[..k])
    {
      var par, seq' := EvaluateCause(causes[k]);
      OneMore(causes[..k], causes[k], parallel, sequential, par, seq');
      assert causes[..k + 1] == causes[..k] + [causes[k]];
      parallel, sequential := parallel + par, sequential + seq';
    }
    assert causes[..|causes|] == causes;
  }

  ghost predicate Evaluated(causes: seq<Cause<Unknown>>, parallel: set<Unknown>, sequential: seq<Cause<Unknown>>) {
    && parallel == Values(SP.At(RoundsOf(causes), 0))
    && RoundsOf(causes) == SP.Pend(SP.At(RoundsOf(causes), 0), RoundsOf(sequential))
    && (sequential != [] ==> parallel != {})
  }

  lemma {:induction false} OneMore(
      causes: seq<Cause<Unknown>>, c: Cause<Unknown>, parallel: set<Unknown>, sequential: seq<Cause<Unknown>>,
      par: set<Unknown>, later: seq<Cause<Unknown>>)
    requires Evaluated(causes, parallel, sequential)
    requires par == Values(SP.At(Rounds(c), 0)) && Rounds(c) == SP.Pend(SP.At(Rounds(c), 0), RoundsOf(later))
    requires (later != [] ==> par != {}) && WeightOf(later) < Weight(c)
    ensures Evaluated(causes + [c], parallel + par, sequential + later)
    ensures WeightOf(sequential + later) + WeightOf(causes) < WeightOf(causes + [c]) + WeightOf(sequential)
  {
    RoundsOfAppend(causes, [c]);
    RoundsOfOne(c);
    RoundsOfAppend(sequential, later);
    WeightOfAppend(causes, [c]);
    WeightOfAppend(sequential, later);
    SP.PendOverlay(SP.At(RoundsOf(causes), 0), RoundsOf(sequential), SP.At(Rounds(c), 0), RoundsOf(later));
    assert SP.At(RoundsOf(causes + [c]), 0) == SP.At(RoundsOf(causes), 0) + SP.At(Rounds(c), 0);
  }

  /** The sets of values that fail together, in the order in which they fail. */
  ghost function Sets(ls: Layers): seq<set<Unknown>> {
    seq(|ls|, i requires 0 <= i < |ls| => Values(ls[i]))
  }

  ghost function Flattened(c: Cause<Unknown>): seq<set<Unknown>> {
    Sets(Rounds(c))
  }

  method FlattenCause(cause: Cause<Unknown>) returns (r: seq<set<Unknown>>)
    ensures r == Flattened(cause)
  {
    RoundsOfOne(cause);
    var causes, flattened := [cause], [];
    while true
      invariant causes != []
      invariant Flattened(cause) == Reverse(flattened) + Sets(RoundsOf(causes))
      decreases WeightOf(causes)
    {
      ghost var first := SP.At(RoundsOf(causes), 0);
      var parallel, sequential := EvaluateAll(causes);
      var updated := if |parallel| > 0 then [parallel] + flattened else flattened;
      SetAppended(flattened, parallel, first, sequential);
      if sequential == [] {
        return Reverse(updated);
      }
      causes, flattened := sequential, updated;
    }
  }

  lemma {:induction false} SetAppended(flattened: seq<set<Unknown>>, parallel: set<Unknown>, m: multiset<Unknown>,
                                       sequential: seq<Cause<Unknown>>)
    requires parallel == Values(m) && (sequential != [] ==> parallel != {})
    ensures Reverse(flattened) + Sets(SP.Pend(m, RoundsOf(sequential))) ==
      Reverse(if |parallel| > 0 then [parallel] + flattened else flattened) + Sets(RoundsOf(sequential))
  {
    SetsOfPend(m, RoundsOf(sequential));
    if |parallel| > 0 {
      assert ([parallel] + flattened)[1..] == flattened;
    } else {
      assert parallel == {};
    }
  }

  lemma {:induction false} SetsOfPend(m: multiset<Unknown>, later: Layers)
    ensures Values(m) == {} <==> m == multiset{}
    ensures Sets(SP.Pend(m, later)) == (if m == multiset{} && later == [] then [] else [Values(m)] + Sets(later))
  {
    if m != multiset{} {
      var x :| x in m;
      assert x in Values(m);
    }
  }

  /** The i-th set holds exactly the i-th values of the chains of the cause. */
  lemma {:induction false} FlattenedByChains(c: Cause<Unknown>)
    ensures forall i: nat :: i < |Flattened(c)| <==> SP.SomeLonger(Denote(c), i)
    ensures forall i: nat, x | i < |Flattened(c)| ::
      x in Flattened(c)[i] <==> SP.OnChain(Denote(c), i, x)
  {
    SP.RoundsAreChainPositions(Denote(c));
    forall i: nat, x | i < |Flattened(c)|
      ensures x in Flattened(c)[i] <==> SP.OnChain(Denote(c), i, x)
    {
      assert SP.IssuedAt(Rounds(c), i, x) <==> x in Flattened(c)[i];
    }
  }

  // ----- Invariance

  ghost predicate SameChains(a: Cause<Unknown>, b: Cause<Unknown>) {
    SP.SameChains(Denote(a), Denote(b))
  }

  lemma {:induction false} SameChainsFlattenAlike(a: Cause<Unknown>, b: Cause<Unknown>)
    requires SameChains(a, b)
    ensures Flattened(a) == Flattened(b)
  {
    SP.RoundsAreChainPositions(Denote(a));
    SP.RoundsNonEmpty(Denote(a), []);
    SP.SameRepresented(Rounds(a), Denote(a), Denote(b));
    RepresentedOnce(Rounds(a), b);
  }

  /** The chains determine the flattening. */
  lemma {:induction false} RepresentedOnce(ls: Layers, c: Cause<Unknown>)
    requires SP.Represents(ls, Denote(c)) && SP.NoEmptyLayer(ls)
    ensures Sets(ls) == Flattened(c)
  {
    SP.RoundsAreChainPositions(Denote(c));
    SP.LongestChain(ls, Denote(c), |ls|);
    SP.LongestChain(ls, Denote(c), |Rounds(c)|);
    assert |ls| == |Rounds(c)|;
    forall i | 0 <= i < |ls| ensures Values(ls[i]) == Values(Rounds(c)[i]) {
      forall v ensures v in Values(ls[i]) <==> v in Values(Rounds(c)[i]) {
        assert SP.IssuedAt(ls, i, v) <==> SP.OnChain(Denote(c), i, v);
        assert SP.IssuedAt(Rounds(c), i, v) <==> SP.OnChain(Denote(c), i, v);
      }
    }
  }

  // The laws of causes. They hold inside any larger cause, by `Congruence`.

  lemma {:induction false} SequentialAssociative(a: Cause<Unknown>, b: Cause<Unknown>, c: Cause<Unknown>)
    ensures SameChains(Sequential(Sequential(a, b), c), Sequential(a, Sequential(b, c)))
  {
    SP.SeqAssociative(Denote(a), Denote(b), Denote(c));
    assert Denote(Sequential(a, b)) == SP.Seq(Denote(a), Denote(b));
    assert Denote(Sequential(b, c)) == SP.Seq(Denote(b), Denote(c));
  }

  lemma {:induction false} SequentialUnit(a: Cause<Unknown>)
    ensures SameChains(Sequential(Empty, a), a) && SameChains(Sequential(a, Empty), a)
  {
    SP.SeqUnit(Denote(a));
    assert Denote(Sequential(Empty, a)) == SP.Seq(SP.Nil, Denote(a));
    assert Denote(Sequential(a, Empty)) == SP.Seq(Denote(a), SP.Nil);
  }

  lemma {:induction false} ParallelLaws(a: Cause<Unknown>, b: Cause<Unknown>, c: Cause<Unknown>)
    ensures SameChains(Parallel(Parallel(a, b), c), Parallel(a, Parallel(b, c)))
    ensures SameChains(Parallel(a, b), Parallel(b, a)) && SameChains(Parallel(a, a), a)
  {
    SP.ParLaws(Denote(a), Denote(b), Denote(c));
    assert Denote(Parallel(a, b)) == SP.Par(Denote(a), Denote(b));
    assert Denote(Parallel(b, c)) == SP.Par(Denote(b), Denote(c));
  }

  lemma {:induction false} DistributiveLaws(a: Cause<Unknown>, b: Cause<Unknown>, c: Cause<Unknown>)
    ensures SameChains(Sequential(a, Parallel(b, c)), Parallel(Sequential(a, b), Sequential(a, c)))
    ensures SameChains(Sequential(Parallel(a, b), c), Parallel(Sequential(a, c), Sequential(b, c)))
  {
    SP.DistributesLeft(Denote(a), Denote(b), Denote(c));
    SP.DistributesRight(Denote(a), Denote(b), Denote(c));
    assert Denote(Parallel(a, b)) == SP.Par(Denote(a), Denote(b));
    assert Denote(Parallel(b, c)) == SP.Par(Denote(b), Denote(c));
    assert Denote(Sequential(a, b)) == SP.Seq(Denote(a), Denote(b));
    assert Denote(Sequential(a, c)) == SP.Seq(Denote(a), Denote(c));
    assert Denote(Sequential(b, c)) == SP.Seq(Denote(b), Denote(c));
  }

  /** A cause with a hole. */
  datatype Context =
    | Hole
    | InAnnotated(inner: Context, annotation: Unknown)
    | SequentialLeft(inner: Context, other: Cause<Unknown>)
    | SequentialRight(other: Cause<Unknown>, inner: Context)
    | ParallelLeft(inner: Context, other: Cause<Unknown>)
    | ParallelRight(other: Cause<Unknown>, inner: Context)
  {
    function Plug(c: Cause<Unknown>): Cause<Unknown> {
      match this
      case Hole => c
      case InAnnotated(k, a) => Annotated(k.Plug(c), a)
      case SequentialLeft(k, d) => Sequential(k.Plug(c), d)
      case SequentialRight(d, k) => Sequential(d, k.Plug(c))
      case ParallelLeft(k, d) => Parallel(k.Plug(c), d)
      case ParallelRight(d, k) => Parallel(d, k.Plug(c))
    }
  }

  /** Causes with the same chains may replace each other anywhere without changing the flattening. */
  lemma {:induction false} Congruence(k: Context, a: Cause<Unknown>, b: Cause<Unknown>)
    requires SameChains(a, b)
    ensures SameChains(k.Plug(a), k.Plug(b)) && Flattened(k.Plug(a)) == Flattened(k.Plug(b))
  {
    if k != Hole {
      Congruence(k.inner, a, b);
      PlugDenoted(k, a);
      PlugDenoted(k, b);
      if !k.InAnnotated? {
        SP.SeqCongruence(Denote(k.inner.Plug(a)), Denote(k.inner.Plug(b)), Denote(k.other));
        SP.ParCongruence(Denote(k.inner.Plug(a)), Denote(k.inner.Plug(b)), Denote(k.other));
      }
    }
    SameChainsFlattenAlike(k.Plug(a), k.Plug(b));
  }

  lemma {:induction false} PlugDenoted(k: Context, c: Cause<Unknown>)
    requires k != Hole
    ensures Denote(k.Plug(c)) ==
      (match k
       case Hole => SP.Nil
       case InAnnotated(i, _) => Denote(i.Plug(c))
       case SequentialLeft(i, d) => SP.Seq(Denote(i.Plug(c)), Denote(d))
       case SequentialRight(d, i) => SP.Seq(Denote(d), Denote(i.Plug(c)))
       case ParallelLeft(i, d) => SP.Par(Denote(i.Plug(c)), Denote(d))
       case ParallelRight(d, i) => SP.Par(Denote(d), Denote(i.Plug(c))))
  {}

  // The empty cause as a unit of `Parallel`

  /** Nothing with a leaf follows the hole in sequence. */
  ghost predicate NothingFollows(k: Context) {
    match k
    case Hole => true
    case SequentialLeft(i, d) => NothingFollows(i) && Rounds(d) == []
    case _ => NothingFollows(k.inner)
  }

  lemma {:induction false} SameRoundsPlugged(k: Context, a: Cause<Unknown>, b: Cause<Unknown>)
    requires NothingFollows(k) && Rounds(a) == Rounds(b)
    ensures Rounds(k.Plug(a)) == Rounds(k.Plug(b))
  {
    if k == Hole {
    } else {
      SameRoundsPlugged(k.inner, a, b);
      PlugDenoted(k, a);
      PlugDenoted(k, b);
    }
  }

  /** The empty cause is a unit of `Parallel` wherever nothing follows, so at the top, in the right operand
      of a sequence, and on either side of a parallel composition there. */
  lemma {:induction false} ParallelUnit(k: Context, a: Cause<Unknown>)
    requires NothingFollows(k)
    ensures Flattened(k.Plug(Parallel(Empty, a))) == Flattened(k.Plug(a))
    ensures Flattened(k.Plug(Parallel(a, Empty))) == Flattened(k.Plug(a))
  {
    assert Rounds(Parallel(Empty, a)) == SP.Overlay(Rounds(Empty), Rounds(a));
    assert Rounds(Parallel(a, Empty)) == SP.Overlay(Rounds(a), Rounds(Empty));
    assert Rounds(Empty) == [];
    SP.OverlayNil(Rounds(a));
    SameRoundsPlugged(k, Parallel(Empty, a), a);
    SameRoundsPlugged(k, Parallel(a, Empty), a);
  }

  lemma {:induction false} EmptyChainAdded(a: Cause<Unknown>)
    requires SP.IsChain(Denote(a), [])
    ensures SameChains(Parallel(Empty, a), a)
  {
    var t, u := Denote(a), Denote(Parallel(Empty, a));
    assert Denote(Empty) == SP.Nil;
    assert u == SP.Par(SP.Nil, t);
    forall c ensures SP.IsChain(u, c) <==> SP.IsChain(t, c) {
      assert SP.IsChain(SP.Nil, c) <==> c == [];
    }
  }

  lemma {:induction false} FirstOfSequence(a: Cause<Unknown>, w: Unknown)
    requires w !in SP.Items(Denote(a)) && !SP.IsChain(Denote(a), [])
    ensures SP.OnChain(Denote(Sequential(Parallel(Empty, a), Fail(w))), 0, w)
    ensures !SP.OnChain(Denote(Sequential(a, Fail(w))), 0, w)
  {
    var t, l := Denote(a), SP.Leaf(w);
    assert Denote(Fail(w)) == l;
    SP.Join(SP.Par(SP.Nil, t), l, [], [w]);
    assert [] + [w] == [w];
    var b := Denote(Sequential(Parallel(Empty, a), Fail(w)));
    assert Denote(Parallel(Empty, a)) == SP.Par(SP.Nil, t);
    assert b == SP.Seq(SP.Par(SP.Nil, t), l) && SP.IsChain(b, [w]) && [w][0] == w;
    assert Denote(Sequential(a, Fail(w))) == SP.Seq(t, l);
    forall c | SP.IsChain(SP.Seq(t, l), c) && 0 < |c| ensures c[0] != w {
      var x, y := SP.Locate(t, l, c, 0);
      assert x != [];
    }
  }

  lemma PlugOnTheLeft(a: Cause<Unknown>, b: Cause<Unknown>)
    ensures SequentialLeft(Hole, b).Plug(a) == Sequential(a, b)
  {
    assert Context.Hole.Plug(a) == a;
  }

  /** The empty cause is a unit next to `a` in every context exactly when `a` has an empty chain: some
      choice of sides of its parallel compositions leaves nothing. `w` is any value not in `a`. */
  lemma {:induction false} ParallelUnitEverywhereIff(a: Cause<Unknown>, w: Unknown)
    requires w !in SP.Items(Denote(a))
    ensures (forall k: Context :: Flattened(k.Plug(Parallel(Empty, a))) == Flattened(k.Plug(a))) <==>
      SP.IsChain(Denote(a), [])
  {
    if SP.IsChain(Denote(a), []) {
      EmptyChainAdded(a);
      forall k: Context ensures Flattened(k.Plug(Parallel(Empty, a))) == Flattened(k.Plug(a)) {
        Congruence(k, Parallel(Empty, a), a);
      }
    } else {
      var k := SequentialLeft(Hole, Fail(w));
      var b, c := Sequential(Parallel(Empty, a), Fail(w)), Sequential(a, Fail(w));
      PlugOnTheLeft(Parallel(Empty, a), Fail(w));
      PlugOnTheLeft(a, Fail(w));
      FirstOfSequence(a, w);
      FlattenedByChains(b);
      FlattenedByChains(c);
      assert SP.SomeLonger(Denote(b), 0);
      assert w in Flattened(b)[0];
      assert Flattened(c) != [] ==> w !in Flattened(c)[0];
      assert Flattened(k.Plug(Parallel(Empty, a))) != Flattened(k.Plug(a));
    }
  }

  /** Where something follows, the empty cause is no unit in general. */
  lemma ParallelUnitFailsOnTheLeft(v: Unknown, w: Unknown)
    requires v != w
    ensures Flattened(Sequential(Parallel(Empty, Fail(v)), Fail(w))) == [{v, w}, {w}]
    ensures Flattened(Sequential(Fail(v), Fail(w))) == [{v}, {w}]
  {
    LeafRounds(Fail(w), Empty);
    LeafRounds(Fail(v), Fail(w));
    var p, q: Layers := [multiset{w}], [multiset{v}, multiset{w}];
    assert Rounds(Fail(w)) == p && Rounds(Sequential(Fail(v), Fail(w))) == q;
    RewriteKeepsRounds(Parallel(Empty, Fail(v)), Fail(w));
    RewriteKeepsRounds(Empty, Fail(w));
    var o := SP.Overlay(p, q);
    assert Rounds(Parallel(Sequential(Empty, Fail(w)), Sequential(Fail(v), Fail(w)))) == o;
    assert o[0] == SP.At(o, 0) == multiset{w} + multiset{v} && o[1] == SP.At(o, 1) == multiset{w};
    assert Values(multiset{w} + multiset{v}) == {v, w} && Values(multiset{v}) == {v} && Values(multiset{w}) == {w};
    assert Sets(o) == [{v, w}, {w}] && Sets(q) == [{v}, {w}];
  }

  lemma {:induction false} UnannotateKeepsFlattening(c: Cause<Unknown>)
    ensures Denote(Unannotated(c)) == Denote(c) && Flattened(Unannotated(c)) == Flattened(c)
  {
    if c.Binary() {
      UnannotateKeepsFlattening(c.left);
      UnannotateKeepsFlattening(c.right);
    } else if c.Annotated? {
      UnannotateKeepsFlattening(c.cause);
      assert Unannotated(c) == Unannotated(c.cause);
    } else if c.Fail? {
      assert Unannotated(c) == ToItself(c.error);
    } else {
      assert Unannotated(c) == c;
    }
  }

  /** The flattening of a cause is empty exactly when the cause is. */
  lemma {:induction false} FlattenedEmptyIff(c: Cause<Unknown>)
    ensures Flattened(c) == [] <==> Leaves(c) == []
  {
    FlattenedByChains(c);
    LeavesAreItems(c);
    if SP.Items(Denote(c)) != {} {
      var x :| x in SP.Items(Denote(c));
      var d, i := SP.ItemHasChain(Denote(c), x);
      assert SP.SomeLonger(Denote(c), 0);
    }
    if SP.SomeLonger(Denote(c), 0) {
      var d :| SP.IsChain(Denote(c), d) && 0 < |d|;
      SP.ChainItems(Denote(c), d);
      assert d[0] in SP.Items(Denote(c));
    }
  }

  lemma {:induction false} LeavesAreItems(c: Cause<Unknown>)
    ensures SP.Items(Denote(c)) == {} <==> Leaves(c) == []
  {
    if c.Binary() {
      LeavesAreItems(c.left);
      LeavesAreItems(c.right);
    } else if c.Annotated? {
      LeavesAreItems(c.cause);
    }
  }
}
