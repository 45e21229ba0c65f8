/**
  The request batching planner: a tree of blocked requests is turned into an ordered list of
  collections, each holding for every resolver the batches to send to it.
 */
module BlockedRequests {
  import opened Options
  import SP = SeriesParallel

  type Resolver(==, !new)
  type Entry(==, !new)

  datatype RequestBlock =
    | Empty
    | Single(dataSource: Resolver, blockedRequest: Entry)
    | Par(left: RequestBlock, right: RequestBlock)
    | Seq(left: RequestBlock, right: RequestBlock)

  datatype Request = Request(dataSource: Resolver, entry: Entry)

  type ParallelCollection = map<Resolver, seq<Entry>>
  type SequentialCollection = map<Resolver, seq<seq<Entry>>>
  type Layers = seq<multiset<Request>>

  // ----- Meaning of blocks

  ghost function Denote(b: RequestBlock): SP.Tree<Request> {
    match b
    case Empty => SP.Nil
    case Single(d, e) => SP.Leaf(Request(d, e))
    case Par(l, r) => SP.Par(Denote(l), Denote(r))
    case Seq(l, r) => SP.Seq(Denote(l), Denote(r))
  }

  ghost function Rounds(b: RequestBlock): Layers {
    SP.Rounds(Denote(b), [])
  }

  /** Rounds of a list of blocks that all start together. */
  ghost function RoundsOf(bs: seq<RequestBlock>): Layers {
    if bs == [] then [] else SP.Overlay(Rounds(bs[0]), RoundsOf(bs[1..]))
  }

  lemma {:induction false} RoundsOfAppend(xs: seq<RequestBlock>, ys: seq<RequestBlock>)
    ensures RoundsOf(xs + ys) == SP.Overlay(RoundsOf(xs), RoundsOf(ys))
  {
    if xs == [] {
      assert xs + ys == ys;
      SP.OverlayNil(RoundsOf(ys));
    } else {
      assert (xs + ys)[1..] == xs[1..] + ys;
      RoundsOfAppend(xs[1..], ys);
      SP.OverlayAssociative(Rounds(xs[0]), RoundsOf(xs[1..]), RoundsOf(ys));
    }
  }

  lemma {:induction false} RoundsOfOne(b: RequestBlock)
    ensures RoundsOf([b]) == Rounds(b)
  {
    assert [b][1..] == [];
    SP.OverlayNil(Rounds(b));
  }

  // ----- Meaning of collections

  ghost function Tagged(d: Resolver, es: seq<Entry>): multiset<Request> {
    if es == [] then multiset{} else multiset{Request(d, es[0])} + Tagged(d, es[1..])
  }

  /** All requests of a collection, each as often as its resolver is given it. */
  ghost function Batch(p: ParallelCollection): multiset<Request>
    decreases |p|
  {
    if p == map[] then multiset{}
    else
      var d :| d in p;
      assert |p - {d}| < |p| by { assert (p - {d}).Keys == p.Keys - {d}; }
      Batch(p - {d}) + Tagged(d, p[d])
  }

  ghost function CountIn(p: ParallelCollection, q: Request): nat {
    if q.dataSource in p then multiset(p[q.dataSource])[q.entry] else 0
  }

  lemma {:induction false} TaggedCount(d: Resolver, es: seq<Entry>, q: Request)
    ensures Tagged(d, es)[q] == if q.dataSource == d then multiset(es)[q.entry] else 0
  {
    if es == [] {
    } else {
      assert es == [es[0]] + es[1..];
      TaggedCount(d, es[1..], q);
    }
  }

  lemma {:induction false} BatchCount(p: ParallelCollection, q: Request)
    ensures Batch(p)[q] == CountIn(p, q)
    decreases |p|
  {
    if p == map[] {
    } else {
      var d :| d in p && Batch(p) == Batch(p - {d}) + Tagged(d, p[d]);
      assert |p - {d}| < |p| by { assert (p - {d}).Keys == p.Keys - {d}; }
      BatchCount(p - {d}, q);
      TaggedCount(d, p[d], q);
    }
  }

  lemma {:induction false} SameBatch(p: ParallelCollection, m: multiset<Request>)
    requires forall q :: m[q] == CountIn(p, q)
    ensures m == Batch(p)
  {
    forall q ensures m[q] == Batch(p)[q] { BatchCount(p, q); }
  }

  // ----- Weights: the termination measure of the rewriting

  function Weight(b: RequestBlock): (w: nat)
    ensures w >= 1
  {
    match b
    case Empty => 1
    case Single(_, _) => 1
    case Par(l, r) => 1 + Weight(l) + Weight(r)
    case Seq(l, r) => SP.ProductPositive(Weight(l), 2 + Weight(r)); Weight(l) * (2 + Weight(r))
  }

  function WeightOf(bs: seq<RequestBlock>): nat {
    if bs == [] then 0 else Weight(bs[0]) + WeightOf(bs[1..])
  }

  lemma {:induction false} WeightOfAppend(xs: seq<RequestBlock>, ys: seq<RequestBlock>)
    ensures WeightOf(xs + ys) == WeightOf(xs) + WeightOf(ys)
  {
    if xs == [] {
      assert xs + ys == ys;
    } else {
      assert (xs + ys)[1..] == xs[1..] + ys;
      WeightOfAppend(xs[1..], ys);
    }
  }

  lemma {:induction false} Cons(b: RequestBlock, bs: seq<RequestBlock>)
    ensures RoundsOf([b] + bs) == SP.Overlay(Rounds(b), RoundsOf(bs))
    ensures WeightOf([b] + bs) == Weight(b) + WeightOf(bs)
  {
    assert ([b] + bs)[1..] == bs;
  }

  // ----- Collections

  function ParallelMake(d: Resolver, e: Entry): ParallelCollection {
    map[d := [e]]
  }

  /** Starts from `that` and appends the entries of `self`. */
  function ParallelCombine(self: ParallelCollection, that: ParallelCollection): ParallelCollection {
    map d | d in self.Keys + that.Keys ::
      if d !in that then self[d] else if d in self then that[d] + self[d] else that[d]
  }

  function ToSequential(self: ParallelCollection): SequentialCollection {
    map d | d in self :: [self[d]]
  }

  /** Starts from `self` and appends the batches of `that`; a resolver that `self` lacks gets none. */
  function SequentialCombine(self: SequentialCollection, that: SequentialCollection): SequentialCollection {
    map d | d in self.Keys + that.Keys ::
      if d !in that then self[d] else if d in self then self[d] + that[d] else []
  }

  lemma {:induction false} CombineAdds(p: ParallelCollection, q: ParallelCollection)
    ensures Batch(ParallelCombine(p, q)) == Batch(p) + Batch(q)
    ensures Proper(p) && Proper(q) ==> Proper(ParallelCombine(p, q))
  {
    forall r ensures (Batch(p) + Batch(q))[r] == CountIn(ParallelCombine(p, q), r) {
      BatchCount(p, r);
      BatchCount(q, r);
      var d := r.dataSource;
      if d in p && d in q {
        assert multiset(q[d] + p[d]) == multiset(q[d]) + multiset(p[d]);
      }
    }
    SameBatch(ParallelCombine(p, q), Batch(p) + Batch(q));
  }

  lemma {:induction false} MakeIsOne(d: Resolver, e: Entry)
    ensures Batch(ParallelMake(d, e)) == multiset{Request(d, e)}
  {
    SameBatch(ParallelMake(d, e), multiset{Request(d, e)});
  }

  /** No resolver has an empty batch. */
  ghost predicate Proper(p: ParallelCollection) {
    forall d :: d in p ==> p[d] != []
  }

  lemma {:induction false} ProperIsEmpty(p: ParallelCollection)
    requires Proper(p)
    ensures p == map[] <==> Batch(p) == multiset{}
  {
    if p != map[] {
      var d :| d in p;
      BatchCount(p, Request(d, p[d][0]));
    }
  }

  // ----- One step

  /** The rounds of the collected requests and of the blocks deferred behind them. */
  ghost function Pending(p: ParallelCollection, later: seq<RequestBlock>): Layers {
    SP.Pend(Batch(p), RoundsOf(later))
  }

  /** What `step` replaces a `Seq` with when its left operand is not a single request. */
  function Rewrite(left: RequestBlock, right: RequestBlock): RequestBlock
    requires !left.Single?
  {
    match left
    case Empty => right
    case Par(l, r) => Par(Seq(l, right), Seq(r, right))
    case Seq(l, r) => Seq(l, Seq(r, right))
  }

  lemma {:induction false} RewriteKeepsRounds(left: RequestBlock, right: RequestBlock)
    requires !left.Single?
    ensures Rounds(Rewrite(left, right)) == Rounds(Seq(left, right))
  {
    assert Denote(Seq(left, right)) == SP.Seq(Denote(left), Denote(right));
    match left
    case Empty =>
      SP.RewritesKeepRounds(SP.Nil, SP.Nil, Denote(right), []);
    case Par(l, r) =>
      assert Denote(Seq(l, right)) == SP.Seq(Denote(l), Denote(right));
      assert Denote(Seq(r, right)) == SP.Seq(Denote(r), Denote(right));
      SP.RewritesKeepRounds(Denote(l), Denote(r), Denote(right), []);
    case Seq(l, r) =>
      assert Denote(Seq(r, right)) == SP.Seq(Denote(r), Denote(right));
      SP.RewritesKeepRounds(Denote(l), Denote(r), Denote(right), []);
  }

  lemma {:induction false} DistributingLosesWeight(l: RequestBlock, m: RequestBlock, r: RequestBlock)
    ensures Weight(Par(Seq(l, r), Seq(m, r))) < Weight(Seq(Par(l, m), r))
  {
    var a, b, c := Weight(l), Weight(m), Weight(r);
    assert Weight(Seq(Par(l, m), r)) == (1 + a + b) * (2 + c);
    assert Weight(Par(Seq(l, r), Seq(m, r))) == 1 + a * (2 + c) + b * (2 + c);
    SP.DistributeLosesWeight(a, b, c);
  }

  lemma {:induction false} ReassociatingLosesWeight(l: RequestBlock, m: RequestBlock, r: RequestBlock)
    ensures Weight(Seq(l, Seq(m, r))) < Weight(Seq(Seq(l, m), r))
  {
    var a, b, c := Weight(l), Weight(m), Weight(r);
    assert Weight(Seq(l, Seq(m, r))) == a * (2 + b * (2 + c));
    assert Weight(Seq(Seq(l, m), r)) == (a * (2 + b)) * (2 + c);
    SP.ReassociateLosesWeight(a, b, c);
  }

  /** Each rewrite loses weight, although one of them copies its right operand. */
  lemma {:induction false} RewriteLosesWeight(left: RequestBlock, right: RequestBlock)
    requires !left.Single?
    ensures Weight(Rewrite(left, right)) < Weight(Seq(left, right))
  {
    match left
    case Empty =>
    case Par(l, r) => DistributingLosesWeight(l, r, right);
    case Seq(l, r) => ReassociatingLosesWeight(l, r, right);
  }

  ghost function Tag(b: RequestBlock): multiset<Request>
    requires b.Single?
  {
    multiset{Request(b.dataSource, b.blockedRequest)}
  }

  lemma {:induction false} SingleRounds(x: RequestBlock, r: RequestBlock)
    requires x.Single?
    ensures Rounds(x) == SP.Pend(Tag(x), [])
    ensures Rounds(Seq(x, r)) == SP.Pend(Tag(x), Rounds(r))
    ensures Weight(Seq(x, r)) == 2 + Weight(r)
  {
    assert Rounds(Seq(x, r)) == SP.Rounds(Denote(x), Rounds(r));
  }

  /** Nothing is deferred unless something is sent, and nobody is sent an empty batch. */
  ghost predicate Split(p: ParallelCollection, later: seq<RequestBlock>) {
    Proper(p) && (later != [] ==> p != map[])
  }

  /** The head of a non-empty list and what is left of it. */
  lemma {:induction false} Uncons(bs: seq<RequestBlock>)
    requires bs != []
    ensures RoundsOf(bs) == SP.Overlay(Rounds(bs[0]), RoundsOf(bs[1..]))
    ensures WeightOf(bs) == Weight(bs[0]) + WeightOf(bs[1..])
  {}

  lemma {:induction false} Collected(p: ParallelCollection, x: RequestBlock)
    requires x.Single? && Proper(p)
    ensures var c := ParallelCombine(p, ParallelMake(x.dataSource, x.blockedRequest));
      Proper(c) && c != map[] && Batch(c) == Batch(p) + Tag(x)
  {
    CombineAdds(p, ParallelMake(x.dataSource, x.blockedRequest));
    CombineNonEmpty(p, ParallelMake(x.dataSource, x.blockedRequest));
    MakeIsOne(x.dataSource, x.blockedRequest);
  }

  /** The first round of `requests`, and the blocks whose rounds together are all its later rounds. */
  method Step(requests: RequestBlock) returns (parallel: ParallelCollection, sequential: seq<RequestBlock>)
    ensures Rounds(requests) == Pending(parallel, sequential) && Split(parallel, sequential)
    ensures WeightOf(sequential) < Weight(requests)
  {
    var current := requests;
    parallel := map[];
    var stack: seq<RequestBlock> := [];
    sequential := [];
    SP.OwedStart(Rounds(requests));
    while true
      invariant Rounds(requests) ==
        SP.Owed(Rounds(current), RoundsOf(stack), Batch(parallel), RoundsOf(sequential))
      invariant Proper(parallel)
      invariant sequential != [] ==> parallel != map[] || current.Single?
      invariant Weight(current) + WeightOf(stack) + WeightOf(sequential) <= Weight(requests)
      decreases Weight(current) + WeightOf(stack)
    {
      match current
      case Empty =>
        if stack == [] {
          SP.OwedEnd(multiset{}, Batch(parallel), RoundsOf(sequential));
          return;
        }
        Uncons(stack);
        SP.OwedSkip(Rounds(stack[0]), RoundsOf(stack[1..]), Batch(parallel), RoundsOf(sequential));
        current, stack := stack[0], stack[1..];
      case Par(left, right) =>
        SP.OwedFork(Rounds(left), Rounds(right), RoundsOf(stack), Batch(parallel), RoundsOf(sequential));
        Cons(right, stack);
        stack := [right] + stack;
        current := left;
      case Seq(left, right) =>
        if left.Single? {
          SingleRounds(left, right);
          SP.OwedDefer(Tag(left), Rounds(right), RoundsOf(stack), Batch(parallel), RoundsOf(sequential));
          Cons(right, sequential);
          current := left;
          sequential := [right] + sequential;
        } else {
          RewriteKeepsRounds(left, right);
          RewriteLosesWeight(left, right);
          match left {
            case Empty => current := right;
            case Par(l, r) => current := Par(Seq(l, right), Seq(r, right));
            case Seq(l, r) => current := Seq(l, Seq(r, right));
          }
        }
      case Single(d, e) =>
        SingleRounds(current, Empty);
        Collected(parallel, current);
        if stack == [] {
          SP.OwedEnd(Tag(current), Batch(parallel), RoundsOf(sequential));
          return ParallelCombine(parallel, ParallelMake(d, e)), sequential;
        }
        Uncons(stack);
        SP.OwedCollect(Tag(current), Rounds(stack[0]), RoundsOf(stack[1..]), Batch(parallel), RoundsOf(sequential));
        parallel := ParallelCombine(parallel, ParallelMake(d, e));
        current, stack := stack[0], stack[1..];
    }
  }

  // ----- One round

  /** All blocks of `current` take a step; their first rounds are issued together. */
  method Round(current: seq<RequestBlock>)
      returns (parallel: ParallelCollection, sequential: seq<RequestBlock>)
    ensures RoundsOf(current) == Pending(parallel, sequential) && Split(parallel, sequential)
    ensures current != [] ==> WeightOf(sequential) < WeightOf(current)
  {
    parallel, sequential := map[], [];
    ghost var done: seq<RequestBlock> := [];
    RoundStarts();
    for k := 0 to |current|
      invariant done == current[..k] && RoundSoFar(done, parallel, sequential)
    {
      var par, seq' := Step(current[k]);
      var both, later := ParallelCombine(parallel, par), sequential + seq';
      RoundMore(done, current[k], parallel, sequential, par, seq');
      done, parallel, sequential := done + [current[k]], both, later;
    }
    assert done == current;
  }

  /** The blocks have taken their step, and each became lighter. */
  ghost predicate RoundSoFar(bs: seq<RequestBlock>, p: ParallelCollection, later: seq<RequestBlock>) {
    && Split(p, later) && RoundsOf(bs) == Pending(p, later)
    && WeightOf(later) + |bs| <= WeightOf(bs)
  }

  lemma RoundStarts()
    ensures RoundSoFar([], map[], [])
  {
    assert Batch(map[]) == multiset{} && RoundsOf([]) == [];
  }

  lemma {:induction false} RoundMore(
      bs: seq<RequestBlock>, b: RequestBlock, p: ParallelCollection, later: seq<RequestBlock>,
      q: ParallelCollection, next: seq<RequestBlock>)
    requires RoundSoFar(bs, p, later)
    requires Split(q, next) && Rounds(b) == Pending(q, next) && WeightOf(next) < Weight(b)
    ensures RoundSoFar(bs + [b], ParallelCombine(p, q), later + next)
  {
    StepTaken(bs, b, p, later, q, next);
    WeightOfAppend(bs, [b]);
    WeightOfAppend(later, next);
    assert WeightOf([b]) == Weight(b);
  }

  lemma {:induction false} StepTaken(
      bs: seq<RequestBlock>, b: RequestBlock, p: ParallelCollection, later: seq<RequestBlock>,
      q: ParallelCollection, next: seq<RequestBlock>)
    requires Split(p, later) && RoundsOf(bs) == Pending(p, later)
    requires Split(q, next) && Rounds(b) == Pending(q, next)
    ensures Split(ParallelCombine(p, q), later + next)
    ensures RoundsOf(bs + [b]) == Pending(ParallelCombine(p, q), later + next)
  {
    CombineAdds(p, q);
    CombineNonEmpty(p, q);
    ProperIsEmpty(p);
    ProperIsEmpty(q);
    RoundsOfAppend(bs, [b]);
    RoundsOfOne(b);
    RoundsOfAppend(later, next);
    SP.PendOverlay(Batch(p), RoundsOf(later), Batch(q), RoundsOf(next));
  }

  lemma CombineNonEmpty(p: ParallelCollection, q: ParallelCollection)
    ensures ParallelCombine(p, q) == map[] ==> p == map[] && q == map[]
  {
    assert ParallelCombine(p, q).Keys == p.Keys + q.Keys;
  }

  // ----- Pipelining

  /** One resolver with several batches, or several resolvers with one batch each. */
  ghost predicate WellShaped(c: SequentialCollection) {
    && (forall d :: d in c ==> |c[d]| >= 1 && forall j :: 0 <= j < |c[d]| ==> c[d][j] != [])
    && (|c| == 1 || forall d :: d in c ==> |c[d]| == 1)
  }

  /** What is issued at the same time as the j-th batch. */
  ghost function Slice(c: SequentialCollection, j: nat): ParallelCollection {
    map d | d in c && j < |c[d]| :: c[d][j]
  }

  ghost function Depth(c: SequentialCollection): nat {
    if c == map[] then 0 else var d :| d in c; |c[d]|
  }

  /** The rounds a collection stands for. */
  ghost function Expand(c: SequentialCollection): Layers {
    seq(Depth(c), j requires 0 <= j => Batch(Slice(c, j)))
  }

  ghost function ExpandAll(cs: seq<SequentialCollection>): Layers {
    if cs == [] then [] else Expand(cs[0]) + ExpandAll(cs[1..])
  }

  /** The rounds of a list of collections kept newest first. */
  ghost function ExpandBack(cs: seq<SequentialCollection>): Layers {
    if cs == [] then [] else ExpandBack(cs[1..]) + Expand(cs[0])
  }

  lemma {:induction false} ExpandAllAppend(xs: seq<SequentialCollection>, c: SequentialCollection)
    ensures ExpandAll(xs + [c]) == ExpandAll(xs) + Expand(c)
  {
    if xs == [] {
      assert xs + [c] == [c] && [c][1..] == [];
    } else {
      assert (xs + [c])[1..] == xs[1..] + [c];
      ExpandAllAppend(xs[1..], c);
    }
  }

  lemma {:induction false} ExpandReverse(cs: seq<SequentialCollection>)
    ensures ExpandAll(Reverse(cs)) == ExpandBack(cs)
  {
    if cs == [] {
    } else {
      ExpandReverse(cs[1..]);
      ExpandAllAppend(Reverse(cs[1..]), cs[0]);
    }
  }

  ghost predicate SameSingleResolver(c: SequentialCollection, d: SequentialCollection) {
    |c| == 1 && |d| == 1 && c.Keys == d.Keys
  }

  /** The invariant of the list that `flatten` builds. */
  ghost predicate Pipelined(cs: seq<SequentialCollection>) {
    && (forall i :: 0 <= i < |cs| ==> WellShaped(cs[i]) && cs[i] != map[])
    && (forall i :: 0 <= i < |cs| - 1 ==> !SameSingleResolver(cs[i], cs[i + 1]))
  }

  function Merge(sequential: seq<SequentialCollection>, parallel: ParallelCollection): seq<SequentialCollection> {
    if sequential == [] then [ToSequential(parallel)]
    else if parallel == map[] then sequential
    else if |sequential[0]| == 1 && |parallel| == 1 && sequential[0].Keys == parallel.Keys then
      [SequentialCombine(sequential[0], ToSequential(parallel))] + sequential[1..]
    else [ToSequential(parallel)] + sequential
  }

  lemma {:induction false} ExpandOneBatchEach(p: ParallelCollection)
    requires Proper(p) && p != map[]
    ensures WellShaped(ToSequential(p)) && ToSequential(p) != map[] && |ToSequential(p)| == |p|
    ensures Expand(ToSequential(p)) == [Batch(p)]
  {
    var c := ToSequential(p);
    assert c.Keys == p.Keys;
    assert |c| == |c.Keys| && |p| == |p.Keys|;
    assert Depth(c) == 1;
    assert Slice(c, 0) == p;
  }

  lemma SingletonKeys<K, V>(m: map<K, V>) returns (k: K)
    requires |m| == 1
    ensures k in m && m.Keys == {k}
  {
    k :| k in m;
    assert |m.Keys - {k}| == 0;
    assert m.Keys == {k};
  }

  lemma {:induction false} ExpandSingle(d: Resolver, batches: seq<seq<Entry>>)
    ensures |map[d := batches]| == 1
    ensures |batches| >= 1 && (forall j :: 0 <= j < |batches| ==> batches[j] != []) <==> WellShaped(map[d := batches])
    ensures |Expand(map[d := batches])| == |batches|
    ensures forall j :: 0 <= j < |batches| ==> Expand(map[d := batches])[j] == Batch(map[d := batches[j]])
  {
    var c := map[d := batches];
    assert d in c && c[d] == batches;
    assert Depth(c) == |batches|;
    forall j: nat | j < |batches| ensures Slice(c, j) == map[d := batches[j]] {}
  }

  /** Combining one resolver's collection with its next batch adds one round after the others. */
  lemma {:induction false} ExpandCombine(c: SequentialCollection, p: ParallelCollection)
    requires WellShaped(c) && Proper(p)
    requires |c| == 1 && |p| == 1 && c.Keys == p.Keys
    ensures SequentialCombine(c, ToSequential(p)).Keys == c.Keys && |SequentialCombine(c, ToSequential(p))| == 1
    ensures WellShaped(SequentialCombine(c, ToSequential(p)))
    ensures Expand(SequentialCombine(c, ToSequential(p))) == Expand(c) + [Batch(p)]
  {
    var d, batches, batch := CombineSingle(c, p);
    assert WellShaped(map[d := batches]) && Proper(map[d := batch]);
    ExpandGrow(d, batches, batch);
  }

  lemma {:induction false} ExpandGrow(d: Resolver, batches: seq<seq<Entry>>, batch: seq<Entry>)
    requires WellShaped(map[d := batches]) && Proper(map[d := batch])
    ensures WellShaped(map[d := batches + [batch]]) && |map[d := batches + [batch]]| == 1
    ensures Expand(map[d := batches + [batch]]) == Expand(map[d := batches]) + [Batch(map[d := batch])]
  {
    assert d in map[d := batch];
    ExpandSingle(d, batches);
    ExpandSingle(d, batches + [batch]);
  }

  lemma CombineSingle(c: SequentialCollection, p: ParallelCollection)
      returns (d: Resolver, batches: seq<seq<Entry>>, batch: seq<Entry>)
    requires |c| == 1 && |p| == 1 && c.Keys == p.Keys
    ensures c == map[d := batches] && p == map[d := batch]
    ensures SequentialCombine(c, ToSequential(p)) == map[d := batches + [batch]]
  {
    d := SingletonKeys(c);
    batches, batch := c[d], p[d];
    assert ToSequential(p) == map[d := [batch]];
  }

  lemma {:induction false} MergeAppendsRound(cs: seq<SequentialCollection>, p: ParallelCollection)
    requires Pipelined(cs) && Proper(p) && p != map[]
    ensures Pipelined(Merge(cs, p)) && Merge(cs, p) != []
    ensures ExpandBack(Merge(cs, p)) == ExpandBack(cs) + [Batch(p)]
  {
    ExpandOneBatchEach(p);
    var m := Merge(cs, p);
    assert ToSequential(p).Keys == p.Keys;
    if cs == [] {
      assert m[1..] == [];
    } else if |cs[0]| == 1 && |p| == 1 && cs[0].Keys == p.Keys {
      ExpandCombine(cs[0], p);
      assert m[1..] == cs[1..];
      forall i | 0 <= i < |m| - 1 ensures !SameSingleResolver(m[i], m[i + 1]) {
        assert m[i + 1] == cs[i + 1] && !SameSingleResolver(cs[i], cs[i + 1]);
      }
      assert ExpandBack(m) == (ExpandBack(cs[1..]) + Expand(cs[0])) + [Batch(p)];
    } else {
      assert m[1..] == cs;
      forall i | 0 <= i < |m| - 1 ensures !SameSingleResolver(m[i], m[i + 1]) {
        if i > 0 { assert !SameSingleResolver(cs[i - 1], cs[i]); }
      }
    }
  }

  lemma PipelinedReverse(cs: seq<SequentialCollection>)
    requires Pipelined(cs)
    ensures Pipelined(Reverse(cs))
  {
    var r := Reverse(cs);
    forall i | 0 <= i < |r| - 1 ensures !SameSingleResolver(r[i], r[i + 1]) {
      var k := |cs| - 2 - i;
      assert r[i] == cs[k + 1] && r[i + 1] == cs[k];
      assert !SameSingleResolver(cs[k], cs[k + 1]);
    }
  }

  /** `plan` issues exactly the rounds of `self`, in order, pipelined as far as possible. A block
      without requests is planned as one empty collection. */
  ghost predicate IsPlan(plan: seq<SequentialCollection>, self: RequestBlock) {
    && plan != []
    && ExpandAll(plan) == Rounds(self)
    && if Rounds(self) == [] then plan == [map[]] else Pipelined(plan)
  }

  method Flatten(self: RequestBlock) returns (plan: seq<SequentialCollection>)
    ensures IsPlan(plan, self)
  {
    var current := [self];
    var updated: seq<SequentialCollection> := [];
    RoundsOfOne(self);
    while true
      invariant current != [] && FlattenState(self, updated, current)
      decreases WeightOf(current)
    {
      var parallel, sequential := Round(current);
      Merged(self, updated, current, parallel, sequential);
      if sequential == [] {
        PlanComplete(self, updated, current, parallel);
        return Reverse(Merge(updated, parallel));
      }
      updated := Merge(updated, parallel);
      current := sequential;
    }
  }

  ghost predicate FlattenState(self: RequestBlock, updated: seq<SequentialCollection>, current: seq<RequestBlock>) {
    Pipelined(updated) && Rounds(self) == ExpandBack(updated) + RoundsOf(current)
  }

  lemma {:induction false} Merged(self: RequestBlock, updated: seq<SequentialCollection>,
      current: seq<RequestBlock>, p: ParallelCollection, later: seq<RequestBlock>)
    requires FlattenState(self, updated, current)
    requires RoundsOf(current) == Pending(p, later) && Split(p, later)
    ensures p != map[] ==> FlattenState(self, Merge(updated, p), later)
  {
    if p != map[] {
      ProperIsEmpty(p);
      MergeAppendsRound(updated, p);
      Reassociate(ExpandBack(updated), [Batch(p)], RoundsOf(later));
    }
  }

  lemma {:induction false} PlanComplete(self: RequestBlock, updated: seq<SequentialCollection>,
                                        current: seq<RequestBlock>, p: ParallelCollection)
    requires FlattenState(self, updated, current)
    requires RoundsOf(current) == Pending(p, []) && Proper(p)
    ensures IsPlan(Reverse(Merge(updated, p)), self)
  {
    var cs := Merge(updated, p);
    Merged(self, updated, current, p, []);
    ProperIsEmpty(p);
    ExpandReverse(cs);
    if p == map[] && updated == [] {
      assert Reverse(cs) == cs == [map[]];
      assert ExpandBack(cs) == [] && Rounds(self) == [];
    } else {
      PipelinedReverse(cs);
      NonEmptyExpansion(cs);
      assert Rounds(self) == ExpandBack(cs);
    }
  }

  lemma {:induction false} NonEmptyExpansion(cs: seq<SequentialCollection>)
    requires Pipelined(cs) && cs != []
    ensures ExpandBack(cs) != []
  {
    assert WellShaped(cs[0]) && cs[0] != map[];
    assert |Expand(cs[0])| >= 1;
  }

  // ----- What a plan guarantees

  /** Round i of a plan issues exactly the i-th requests of the chains of the block. */
  lemma {:induction false} PlanFollowsChains(plan: seq<SequentialCollection>, self: RequestBlock)
    requires IsPlan(plan, self)
    ensures SP.Represents(ExpandAll(plan), Denote(self))
    ensures forall i: nat :: i < |ExpandAll(plan)| <==> SP.SomeLonger(Denote(self), i)
  {
    SP.RoundsAreChainPositions(Denote(self));
  }

  /** Each issue of a request left of a `Seq` is followed by an issue of every request to its right. */
  lemma {:induction false} PlanRespectsSequence(plan: seq<SequentialCollection>, self: RequestBlock, a: Request,
      b: Request, i: nat)
    requires IsPlan(plan, self) && SP.Distinct(Denote(self))
    requires SP.Before(Denote(self), a, b) && i < |ExpandAll(plan)| && a in ExpandAll(plan)[i]
    ensures exists j :: i < j < |ExpandAll(plan)| && b in ExpandAll(plan)[j]
  {
    SP.LeftIsFollowedByRight(Denote(self), a, b, i);
  }

  /** A plan runs everything left of a `Seq` before anything to its right iff the block is balanced. */
  lemma {:induction false} PlanOrderedIff(plan: seq<SequentialCollection>, self: RequestBlock)
    requires IsPlan(plan, self) && SP.Distinct(Denote(self))
    ensures SP.Ordered(Denote(self), ExpandAll(plan)) <==> SP.Balanced(Denote(self))
  {
    SP.OrderedIff(Denote(self));
  }

  /** Over the whole plan a request is issued once for every chain of what must precede it. */
  lemma {:induction false} PlanMultiplicity(plan: seq<SequentialCollection>, self: RequestBlock, q: Request)
    requires IsPlan(plan, self)
    ensures SP.Total(ExpandAll(plan), q) == SP.Issues(Denote(self), q)
  {
    SP.ExactMultiplicity(Denote(self), q);
  }

  ghost predicate IssuesEachOnce(plan: seq<SequentialCollection>, self: RequestBlock) {
    forall q :: SP.Total(ExpandAll(plan), q) == SP.Occurrences(Denote(self), q)
  }

  /** A plan issues every occurrence of every request exactly once iff no `Seq` whose left operand
      contains a `Par` has a request on its right. */
  lemma {:induction false} PlanIssuesOnceIff(plan: seq<SequentialCollection>, self: RequestBlock)
    requires IsPlan(plan, self)
    ensures IssuesEachOnce(plan, self) <==> SP.CopyFree(Denote(self))
  {
    SP.IssuedOnceIff(Denote(self));
    forall q ensures SP.Total(ExpandAll(plan), q) == SP.Issues(Denote(self), q) {
      SP.ExactMultiplicity(Denote(self), q);
    }
  }

  /** The general combination keeps all batches iff every resolver of `that` is one of `self`; `Merge`
      only combines collections with the same resolver. */
  lemma CombineKeepsBatchesIff(self: SequentialCollection, that: SequentialCollection)
    requires forall d :: d in that ==> that[d] != []
    ensures that.Keys <= self.Keys <==>
      forall d :: d in that ==>
        SequentialCombine(self, that)[d] == (if d in self then self[d] else []) + that[d]
    ensures forall d :: d in that && d !in self ==> SequentialCombine(self, that)[d] == []
  {
    if d :| d in that && d !in self {
      assert SequentialCombine(self, that)[d] == [] != [] + that[d];
    }
  }

  // ----- Folding

  datatype Reducer<!Z> = Reducer(
    emptyCase: () -> Z,
    parCase: (Z, Z) -> Z,
    seqCase: (Z, Z) -> Z,
    singleCase: (Resolver, Entry) -> Z)

  function Fold<Z>(b: RequestBlock, f: Reducer<Z>): Z {
    match b
    case Empty => f.emptyCase()
    case Single(d, e) => f.singleCase(d, e)
    case Par(l, r) => f.parCase(Fold(l, f), Fold(r, f))
    case Seq(l, r) => f.seqCase(Fold(l, f), Fold(r, f))
  }

  datatype Cell<Z> = ParCase | SeqCase | Value(value: Z)

  /** What `reduce` puts on its output list for a block, the last output first. */
  ghost function Cells<Z>(b: RequestBlock, f: Reducer<Z>): seq<Cell<Z>> {
    match b
    case Empty => [Value(f.emptyCase())]
    case Single(d, e) => [Value(f.singleCase(d, e))]
    case Par(l, r) => Cells(r, f) + Cells(l, f) + [ParCase]
    case Seq(l, r) => Cells(r, f) + Cells(l, f) + [SeqCase]
  }

  ghost function CellsOf<Z>(bs: seq<RequestBlock>, f: Reducer<Z>): seq<Cell<Z>> {
    if bs == [] then [] else CellsOf(bs[1..], f) + Cells(bs[0], f)
  }

  datatype Outcome<T> = Underflow | Stack(values: seq<T>)

  /** Runs the cells on a stack of values. */
  ghost function Run<Z>(cells: seq<Cell<Z>>, acc: seq<Z>, f: Reducer<Z>): Outcome<Z> {
    if cells == [] then Stack(acc)
    else match cells[0]
      case Value(v) => Run(cells[1..], [v] + acc, f)
      case ParCase =>
        if |acc| < 2 then Underflow else Run(cells[1..], [f.parCase(acc[0], acc[1])] + acc[2..], f)
      case SeqCase =>
        if |acc| < 2 then Underflow else Run(cells[1..], [f.seqCase(acc[0], acc[1])] + acc[2..], f)
  }

  lemma {:induction false} RunAppend<Z>(xs: seq<Cell<Z>>, ys: seq<Cell<Z>>, acc: seq<Z>, f: Reducer<Z>)
    requires Run(xs, acc, f).Stack?
    ensures Run(xs + ys, acc, f) == Run(ys, Run(xs, acc, f).values, f)
  {
    if xs == [] {
      assert xs + ys == ys;
    } else {
      assert (xs + ys)[1..] == xs[1..] + ys;
      match xs[0]
      case Value(v) => RunAppend(xs[1..], ys, [v] + acc, f);
      case ParCase => RunAppend(xs[1..], ys, [f.parCase(acc[0], acc[1])] + acc[2..], f);
      case SeqCase => RunAppend(xs[1..], ys, [f.seqCase(acc[0], acc[1])] + acc[2..], f);
    }
  }

  /** Running the cells of a block pushes its fold. */
  lemma {:induction false} RunCells<Z>(b: RequestBlock, acc: seq<Z>, f: Reducer<Z>)
    ensures Run(Cells(b, f), acc, f) == Stack([Fold(b, f)] + acc)
  {
    if b.Par? || b.Seq? {
      var op: Cell<Z> := if b.Par? then ParCase else SeqCase;
      var l, r := Cells(b.left, f), Cells(b.right, f);
      RunCells(b.right, acc, f);
      RunCells(b.left, [Fold(b.right, f)] + acc, f);
      RunAppend(r, l, acc, f);
      RunAppend(r + l, [op], acc, f);
      assert ([Fold(b.left, f)] + ([Fold(b.right, f)] + acc))[2..] == acc;
    }
  }

  function Nodes(b: RequestBlock): nat {
    if b.Par? || b.Seq? then 1 + Nodes(b.left) + Nodes(b.right) else 1
  }

  function NodesOf(bs: seq<RequestBlock>): nat {
    if bs == [] then 0 else Nodes(bs[0]) + NodesOf(bs[1..])
  }

  /** Moving the operands of a node to the input and its marker to the output changes nothing. */
  lemma {:induction false} CellsMoved<Z>(b: RequestBlock, rest: seq<RequestBlock>, op: Cell<Z>,
                                         output: seq<Cell<Z>>, f: Reducer<Z>)
    requires b.Par? || b.Seq?
    requires op == if b.Par? then ParCase else SeqCase
    ensures CellsOf([b.left] + ([b.right] + rest), f) + ([op] + output) == CellsOf([b] + rest, f) + output
    ensures NodesOf([b.left] + ([b.right] + rest)) < NodesOf([b] + rest)
  {
    var rs := [b.right] + rest;
    assert ([b.left] + rs)[1..] == rs && rs[1..] == rest && ([b] + rest)[1..] == rest;
  }

  lemma {:induction false} CellsEmitted<Z>(b: RequestBlock, rest: seq<RequestBlock>, op: Cell<Z>,
                                           output: seq<Cell<Z>>, f: Reducer<Z>)
    requires Cells(b, f) == [op]
    ensures CellsOf(rest, f) + ([op] + output) == CellsOf([b] + rest, f) + output
    ensures NodesOf(rest) < NodesOf([b] + rest)
  {
    assert ([b] + rest)[1..] == rest;
  }

  /** The two-phase stack machine computes the structural fold; neither phase can run dry. */
  method Reduce<Z>(self: RequestBlock, f: Reducer<Z>) returns (z: Z)
    ensures z == Fold(self, f)
  {
    var input := [self];
    var output: seq<Cell<Z>> := [];
    while input != []
      invariant CellsOf(input, f) + output == Cells(self, f)
      decreases NodesOf(input)
    {
      var current, rest := input[0], input[1..];
      assert input == [current] + rest;
      match current
      case Empty =>
        CellsEmitted(current, rest, Value(f.emptyCase()), output, f);
        output, input := [Value(f.emptyCase())] + output, rest;
      case Par(l, r) =>
        CellsMoved(current, rest, ParCase, output, f);
        output, input := [ParCase] + output, [l] + ([r] + rest);
      case Seq(l, r) =>
        CellsMoved(current, rest, SeqCase, output, f);
        output, input := [SeqCase] + output, [l] + ([r] + rest);
      case Single(d, e) =>
        CellsEmitted(current, rest, Value(f.singleCase(d, e)), output, f);
        output, input := [Value(f.singleCase(d, e))] + output, rest;
    }
    z := RunMachine(self, output, f);
  }

  method RunMachine<Z>(ghost self: RequestBlock, output: seq<Cell<Z>>, f: Reducer<Z>) returns (z: Z)
    requires output == Cells(self, f)
    ensures z == Fold(self, f)
  {
    RunCells(self, [], f);
    var acc: seq<Z> := [];
    for k := 0 to |output|
      invariant Run(output[k..], acc, f) == Stack([Fold(self, f)])
    {
      assert output[k..][0] == output[k] && output[k..][1..] == output[k + 1..];
      match output[k]
      case ParCase => acc := [f.parCase(acc[0], acc[1])] + acc[2..];
      case SeqCase => acc := [f.seqCase(acc[0], acc[1])] + acc[2..];
      case Value(v) => acc := [v] + acc;
    }
    return acc[0];
  }

  // ----- Mapping resolvers

  function MapReducer(f: Resolver -> Resolver): Reducer<RequestBlock> {
    Reducer(() => Empty, (l, r) => Par(l, r), (l, r) => Seq(l, r), (d, e) => Single(f(d), e))
  }

  function MapRequestResolvers(self: RequestBlock, f: Resolver -> Resolver): RequestBlock {
    Fold(self, MapReducer(f))
  }

  function MapChain(c: seq<Request>, f: Resolver -> Resolver): seq<Request> {
    seq(|c|, i requires 0 <= i < |c| => Request(f(c[i].dataSource), c[i].entry))
  }

  /** Every chain of the block gives one of the mapped block, entry by entry. */
  lemma {:induction false} MappedChain(self: RequestBlock, f: Resolver -> Resolver, c: seq<Request>)
    requires SP.IsChain(Denote(self), c)
    ensures SP.IsChain(Denote(MapRequestResolvers(self, f)), MapChain(c, f))
  {
    match self
    case Empty =>
    case Single(d, e) => assert MapChain(c, f) == [Request(f(d), e)];
    case Par(l, r) => if SP.IsChain(Denote(l), c) { MappedChain(l, f, c); } else { MappedChain(r, f, c); }
    case Seq(l, r) =>
      var x, y := SP.Split(Denote(l), Denote(r), c);
      MappedChain(l, f, x);
      MappedChain(r, f, y);
      SP.Join(Denote(MapRequestResolvers(l, f)), Denote(MapRequestResolvers(r, f)), MapChain(x, f), MapChain(y, f));
      assert MapChain(c, f) == MapChain(x, f) + MapChain(y, f);
  }

  /** Every chain of the mapped block comes from one of the block. */
  lemma {:induction false} UnmappedChain(self: RequestBlock, f: Resolver -> Resolver, m: seq<Request>)
      returns (c: seq<Request>)
    requires SP.IsChain(Denote(MapRequestResolvers(self, f)), m)
    ensures SP.IsChain(Denote(self), c) && m == MapChain(c, f)
  {
    match self
    case Empty => c := [];
    case Single(d, e) =>
      c := [Request(d, e)];
      assert MapChain(c, f) == [Request(f(d), e)];
    case Par(l, r) =>
      if SP.IsChain(Denote(MapRequestResolvers(l, f)), m) {
        c := UnmappedChain(l, f, m);
      } else {
        c := UnmappedChain(r, f, m);
      }
    case Seq(l, r) =>
      var x, y := SP.Split(Denote(MapRequestResolvers(l, f)), Denote(MapRequestResolvers(r, f)), m);
      var v := UnmappedChain(l, f, x);
      var w := UnmappedChain(r, f, y);
      SP.Join(Denote(l), Denote(r), v, w);
      c := v + w;
      assert MapChain(c, f) == MapChain(v, f) + MapChain(w, f);
  }

  /** Changing resolvers moves no entry to another round: round i of a plan of the mapped block issues
      exactly the requests of round i of a plan of the block, sent to the new resolvers. */
  lemma {:induction false} MapKeepsPlan(self: RequestBlock, f: Resolver -> Resolver,
      plan: seq<SequentialCollection>, mapped: seq<SequentialCollection>, i: nat, q: Request)
    requires IsPlan(plan, self) && IsPlan(mapped, MapRequestResolvers(self, f))
    ensures SP.IssuedAt(ExpandAll(mapped), i, q) <==>
      exists p :: SP.IssuedAt(ExpandAll(plan), i, p) && q == Request(f(p.dataSource), p.entry)
  {
    var t, u := Denote(self), Denote(MapRequestResolvers(self, f));
    SP.RoundsAreChainPositions(t);
    SP.RoundsAreChainPositions(u);
    if SP.IssuedAt(ExpandAll(mapped), i, q) {
      assert SP.OnChain(u, i, q);
      var p := UnmappedAt(self, f, i, q);
      assert SP.IssuedAt(ExpandAll(plan), i, p);
    }
    if p :| SP.IssuedAt(ExpandAll(plan), i, p) && q == Request(f(p.dataSource), p.entry) {
      assert SP.OnChain(t, i, p);
      MappedAt(self, f, i, p);
      assert SP.OnChain(u, i, q);
    }
  }

  lemma {:induction false} UnmappedAt(self: RequestBlock, f: Resolver -> Resolver, i: nat,
      q: Request) returns (p: Request)
    requires SP.OnChain(Denote(MapRequestResolvers(self, f)), i, q)
    ensures SP.OnChain(Denote(self), i, p) && q == Request(f(p.dataSource), p.entry)
  {
    var m :| SP.IsChain(Denote(MapRequestResolvers(self, f)), m) && i < |m| && m[i] == q;
    var c := UnmappedChain(self, f, m);
    p := c[i];
  }

  lemma {:induction false} MappedAt(self: RequestBlock, f: Resolver -> Resolver, i: nat, p: Request)
    requires SP.OnChain(Denote(self), i, p)
    ensures SP.OnChain(Denote(MapRequestResolvers(self, f)), i, Request(f(p.dataSource), p.entry))
  {
    var c :| SP.IsChain(Denote(self), c) && i < |c| && c[i] == p;
    MappedChain(self, f, c);
    assert MapChain(c, f)[i] == Request(f(p.dataSource), p.entry);
  }
}
