/**
  Getters and filters of causes, each run on one of the stack machines and specified by the leaves of
  the cause in preorder.
 */
module CauseFilters {
  import opened Options
  import opened Causes

  /** The failures, defects and interruptions of a cause, from left to right. */
  ghost function Leaves<E>(c: Cause<E>): seq<Cause<E>> {
    match c
    case Empty => []
    case Annotated(d, _) => Leaves(d)
    case Sequential(l, r) => Leaves(l) + Leaves(r)
    case Parallel(l, r) => Leaves(l) + Leaves(r)
    case _ => [c]
  }

  ghost function FailsIn<E>(s: seq<Cause<E>>): seq<E> {
    if s == [] then [] else (if s[0].Fail? then [s[0].error] else []) + FailsIn(s[1..])
  }

  ghost function DefectsIn<E>(s: seq<Cause<E>>): seq<Unknown> {
    if s == [] then [] else (if s[0].Die? then [s[0].defect] else []) + DefectsIn(s[1..])
  }

  ghost function InterruptorsIn<E>(s: seq<Cause<E>>): seq<Unknown> {
    if s == [] then [] else (if s[0].Interrupt? then [s[0].fiberId] else []) + InterruptorsIn(s[1..])
  }

  // ----- Traversals that only look at leaves

  lemma {:induction false} FoldAppend<E, Z>(
      a: seq<Cause<E>>, b: seq<Cause<E>>, z: Z, pf: (Z, Cause<E>) -> Option<Z>)
    ensures FoldNodes(a + b, z, pf) == FoldNodes(b, FoldNodes(a, z, pf), pf)
  {
    if a == [] {
      assert a + b == b;
    } else {
      assert (a + b)[1..] == a[1..] + b;
      FoldAppend(a[1..], b, pf(z, a[0]).GetOr(z), pf);
    }
  }

  ghost predicate SkipsInner<E(!new), Z(!new)>(pf: (Z, Cause<E>) -> Option<Z>) {
    forall z, c: Cause<E> :: !c.Leaf() ==> pf(z, c).GetOr(z) == z
  }

  lemma {:induction false} FoldLeaves<E(!new), Z(!new)>(c: Cause<E>, z: Z, pf: (Z, Cause<E>) -> Option<Z>)
    requires SkipsInner(pf)
    ensures FoldNodes(Nodes(c), z, pf) == FoldNodes(Leaves(c), z, pf)
    decreases c
  {
    if c.Leaf() {
    } else {
      assert pf(z, c).GetOr(z) == z;
      assert Nodes(c) == [c] + Nodes(c)[1..];
      match c
      case Annotated(d, _) => FoldLeaves(d, z, pf);
      case Sequential(_, _) => FoldLeavesPair(c, z, pf);
      case Parallel(_, _) => FoldLeavesPair(c, z, pf);
      case Empty => assert Nodes(c)[1..] == [];
    }
  }

  lemma {:induction false} FoldLeavesPair<E(!new), Z(!new)>(c: Cause<E>, z: Z, pf: (Z, Cause<E>) -> Option<Z>)
    requires SkipsInner(pf) && c.Binary()
    ensures FoldNodes(Nodes(c.left) + Nodes(c.right), z, pf) == FoldNodes(Leaves(c), z, pf)
    decreases c, 0
  {
    FoldAppend(Nodes(c.left), Nodes(c.right), z, pf);
    FoldAppend(Leaves(c.left), Leaves(c.right), z, pf);
    FoldLeaves(c.left, z, pf);
    FoldLeaves(c.right, FoldNodes(Leaves(c.left), z, pf), pf);
  }

  lemma {:induction false} HitAppend<E, Z>(a: seq<Cause<E>>, b: seq<Cause<E>>, pf: Cause<E> -> Option<Z>)
    ensures FirstHit(a + b, pf) == if FirstHit(a, pf).Some? then FirstHit(a, pf) else FirstHit(b, pf)
  {
    if a == [] {
      assert a + b == b;
    } else {
      assert (a + b)[1..] == a[1..] + b;
      HitAppend(a[1..], b, pf);
    }
  }

  ghost predicate MissesInner<E(!new), Z>(pf: Cause<E> -> Option<Z>) {
    forall c: Cause<E> :: !c.Leaf() ==> pf(c) == None
  }

  lemma {:induction false} HitLeaves<E(!new), Z>(c: Cause<E>, pf: Cause<E> -> Option<Z>)
    requires MissesInner(pf)
    ensures FirstHit(Nodes(c), pf) == FirstHit(Leaves(c), pf)
  {
    if !c.Leaf() {
      assert pf(c) == None;
      assert Nodes(c) == [c] + Nodes(c)[1..];
      if c.Binary() {
        HitLeaves(c.left, pf);
        HitLeaves(c.right, pf);
        HitAppend(Nodes(c.left), Nodes(c.right), pf);
        HitAppend(Leaves(c.left), Leaves(c.right), pf);
      } else if c.Annotated? {
        HitLeaves(c.cause, pf);
      } else {
        assert Nodes(c)[1..] == [];
      }
    }
  }

  // ----- Getters

  function AddFailure<E>(list: seq<E>, c: Cause<E>): Option<seq<E>> {
    if c.Fail? then Some([c.error] + list) else None
  }

  function AddDefect<E>(list: seq<Unknown>, c: Cause<E>): Option<seq<Unknown>> {
    if c.Die? then Some([c.defect] + list) else None
  }

  function AddInterruptor<E>(ids: set<Unknown>, c: Cause<E>): Option<set<Unknown>> {
    if c.Interrupt? then Some(ids + {c.fiberId}) else None
  }

  function StillEmpty<E>(acc: bool, c: Cause<E>): Option<bool> {
    if c.Empty? then Some(acc) else if c.Leaf() then Some(false) else None
  }

  function AnyFailure<E>(c: Cause<E>): Option<E> {
    if c.Fail? then Some(c.error) else None
  }

  function AnyDefect<E>(c: Cause<E>): Option<Unknown> {
    if c.Die? then Some(c.defect) else None
  }

  function AnyInterruptor<E>(c: Cause<E>): Option<Unknown> {
    if c.Interrupt? then Some(c.fiberId) else None
  }

  lemma ReverseMore<T>(x: T, list: seq<T>, rest: seq<T>)
    ensures Reverse([x] + list) + rest == Reverse(list) + ([x] + rest)
  {
    assert ([x] + list)[1..] == list;
  }

  lemma {:induction false} FailuresCollected<E>(s: seq<Cause<E>>, list: seq<E>)
    ensures Reverse(FoldNodes(s, list, AddFailure)) == Reverse(list) + FailsIn(s)
  {
    if s == [] {
    } else if s[0].Fail? {
      ReverseMore(s[0].error, list, FailsIn(s[1..]));
      FailuresCollected(s[1..], [s[0].error] + list);
    } else {
      FailuresCollected(s[1..], list);
      assert FailsIn(s) == FailsIn(s[1..]);
    }
  }

  lemma {:induction false} DefectsCollected<E>(s: seq<Cause<E>>, list: seq<Unknown>)
    ensures Reverse(FoldNodes(s, list, AddDefect)) == Reverse(list) + DefectsIn(s)
  {
    if s == [] {
    } else if s[0].Die? {
      ReverseMore(s[0].defect, list, DefectsIn(s[1..]));
      DefectsCollected(s[1..], [s[0].defect] + list);
    } else {
      DefectsCollected(s[1..], list);
      assert DefectsIn(s) == DefectsIn(s[1..]);
    }
  }

  lemma {:induction false} InterruptorsCollected<E>(s: seq<Cause<E>>, ids: set<Unknown>)
    ensures FoldNodes(s, ids, AddInterruptor) == ids + set i | i in InterruptorsIn(s)
  {
    if s == [] {
    } else {
      InterruptorsCollected(s[1..], AddInterruptor(ids, s[0]).GetOr(ids));
    }
  }

  lemma {:induction false} EmptinessCollected<E>(s: seq<Cause<E>>, acc: bool)
    requires forall i :: 0 <= i < |s| ==> s[i].Leaf()
    ensures FoldNodes(s, acc, StillEmpty) == (acc && s == [])
  {
    if s == [] {
    } else {
      EmptinessCollected(s[1..], false);
    }
  }

  lemma {:induction false} LeavesAreLeaves<E>(c: Cause<E>)
    ensures forall i :: 0 <= i < |Leaves(c)| ==> Leaves(c)[i].Leaf()
  {
    match c
    case Annotated(d, _) => LeavesAreLeaves(d);
    case Sequential(l, r) => LeavesAreLeaves(l); LeavesAreLeaves(r);
    case Parallel(l, r) => LeavesAreLeaves(l); LeavesAreLeaves(r);
    case _ =>
  }

  method Failures<E(!new)>(self: Cause<E>) returns (errors: seq<E>)
    ensures errors == FailsIn(Leaves(self))
  {
    var list := Reduce(self, [], AddFailure);
    FoldLeaves(self, [], AddFailure);
    FailuresCollected(Leaves(self), []);
    return Reverse(list);
  }

  method Defects<E(!new)>(self: Cause<E>) returns (defects: seq<Unknown>)
    ensures defects == DefectsIn(Leaves(self))
  {
    var list := Reduce(self, [], AddDefect);
    FoldLeaves(self, [], AddDefect);
    DefectsCollected(Leaves(self), []);
    return Reverse(list);
  }

  method Interruptors<E(!new)>(self: Cause<E>) returns (ids: set<Unknown>)
    ensures ids == set i | i in InterruptorsIn(Leaves(self))
  {
    ids := Reduce(self, {}, AddInterruptor);
    FoldLeaves(self, {}, AddInterruptor);
    InterruptorsCollected(Leaves(self), {});
  }

  method IsEmpty<E(!new)>(self: Cause<E>) returns (b: bool)
    ensures b <==> Leaves(self) == []
  {
    if self.Empty? {
      return true;
    }
    b := Reduce(self, true, StillEmpty);
    FoldLeaves(self, true, StillEmpty);
    LeavesAreLeaves(self);
    EmptinessCollected(Leaves(self), true);
  }

  lemma {:induction false} FirstFailure<E>(s: seq<Cause<E>>)
    ensures FirstHit(s, AnyFailure) == if FailsIn(s) == [] then None else Some(FailsIn(s)[0])
  {
    if s == [] {
    } else {
      FirstFailure(s[1..]);
    }
  }

  lemma {:induction false} FirstDefect<E>(s: seq<Cause<E>>)
    ensures FirstHit(s, AnyDefect) == if DefectsIn(s) == [] then None else Some(DefectsIn(s)[0])
  {
    if s == [] {
    } else {
      FirstDefect(s[1..]);
    }
  }

  lemma {:induction false} FirstInterruptor<E>(s: seq<Cause<E>>)
    ensures FirstHit(s, AnyInterruptor) == if InterruptorsIn(s) == [] then None else Some(InterruptorsIn(s)[0])
  {
    if s == [] {
    } else {
      FirstInterruptor(s[1..]);
    }
  }

  method FailureOption<E(!new)>(self: Cause<E>) returns (e: Option<E>)
    ensures e == if FailsIn(Leaves(self)) == [] then None else Some(FailsIn(Leaves(self))[0])
  {
    e := Find(self, AnyFailure);
    HitLeaves(self, AnyFailure);
    FirstFailure(Leaves(self));
  }

  method DieOption<E(!new)>(self: Cause<E>) returns (d: Option<Unknown>)
    ensures d == if DefectsIn(Leaves(self)) == [] then None else Some(DefectsIn(Leaves(self))[0])
  {
    d := Find(self, AnyDefect);
    HitLeaves(self, AnyDefect);
    FirstDefect(Leaves(self));
  }

  method InterruptOption<E(!new)>(self: Cause<E>) returns (i: Option<Unknown>)
    ensures i == if InterruptorsIn(Leaves(self)) == [] then None else Some(InterruptorsIn(Leaves(self))[0])
  {
    i := Find(self, AnyInterruptor);
    HitLeaves(self, AnyInterruptor);
    FirstInterruptor(Leaves(self));
  }

  // ----- Getters on the fold

  function SizeReducer<E>(): Reducer<(), E, nat> {
    Reducer(_ => 0, (_, _) => 1, (_, _) => 1, (_, _) => 1, (_, v, _) => v, (_, l, r) => l + r, (_, l, r) => l + r)
  }

  function InterruptedOnlyReducer<E>(): Reducer<(), E, bool> {
    Reducer(_ => true, (_, _) => false, (_, _) => false, (_, _) => true, (_, v, _) => v,
            (_, l, r) => l && r, (_, l, r) => l && r)
  }

  lemma {:induction false} SizeIsLeafCount<E>(c: Cause<E>)
    ensures Fold(c, (), SizeReducer()) == |Leaves(c)|
  {
    match c
    case Annotated(d, _) => SizeIsLeafCount(d);
    case Sequential(l, r) => SizeIsLeafCount(l); SizeIsLeafCount(r);
    case Parallel(l, r) => SizeIsLeafCount(l); SizeIsLeafCount(r);
    case _ =>
  }

  lemma {:induction false} PartsAppend<E>(a: seq<Cause<E>>, b: seq<Cause<E>>)
    ensures FailsIn(a + b) == FailsIn(a) + FailsIn(b)
    ensures DefectsIn(a + b) == DefectsIn(a) + DefectsIn(b)
    ensures InterruptorsIn(a + b) == InterruptorsIn(a) + InterruptorsIn(b)
  {
    FailsAppend(a, b);
    DefectsAppend(a, b);
    InterruptorsAppend(a, b);
  }

  lemma {:induction false} FailsAppend<E>(a: seq<Cause<E>>, b: seq<Cause<E>>)
    ensures FailsIn(a + b) == FailsIn(a) + FailsIn(b)
  {
    if a == [] {
      assert a + b == b;
    } else {
      var head := if a[0].Fail? then [a[0].error] else [];
      FailsAppend(a[1..], b);
      assert (a + b)[1..] == a[1..] + b && (a + b)[0] == a[0];
      assert FailsIn(a) == head + FailsIn(a[1..]) && FailsIn(a + b) == head + FailsIn(a[1..] + b);
      Reassociate(head, FailsIn(a[1..]), FailsIn(b));
    }
  }

  lemma {:induction false} DefectsAppend<E>(a: seq<Cause<E>>, b: seq<Cause<E>>)
    ensures DefectsIn(a + b) == DefectsIn(a) + DefectsIn(b)
  {
    if a == [] {
      assert a + b == b;
    } else {
      var head := if a[0].Die? then [a[0].defect] else [];
      DefectsAppend(a[1..], b);
      assert (a + b)[1..] == a[1..] + b && (a + b)[0] == a[0];
      assert DefectsIn(a) == head + DefectsIn(a[1..]) && DefectsIn(a + b) == head + DefectsIn(a[1..] + b);
      Reassociate(head, DefectsIn(a[1..]), DefectsIn(b));
    }
  }

  lemma {:induction false} InterruptorsAppend<E>(a: seq<Cause<E>>, b: seq<Cause<E>>)
    ensures InterruptorsIn(a + b) == InterruptorsIn(a) + InterruptorsIn(b)
  {
    if a == [] {
      assert a + b == b;
    } else {
      var head := if a[0].Interrupt? then [a[0].fiberId] else [];
      InterruptorsAppend(a[1..], b);
      assert (a + b)[1..] == a[1..] + b && (a + b)[0] == a[0];
      assert InterruptorsIn(a) == head + InterruptorsIn(a[1..]);
      assert InterruptorsIn(a + b) == head + InterruptorsIn(a[1..] + b);
      Reassociate(head, InterruptorsIn(a[1..]), InterruptorsIn(b));
    }
  }

  lemma {:induction false} PartsCons<E>(s: seq<Cause<E>>)
    requires s != []
    ensures FailsIn(s) == if s[0].Fail? then [s[0].error] + FailsIn(s[1..]) else FailsIn(s[1..])
    ensures DefectsIn(s) == if s[0].Die? then [s[0].defect] + DefectsIn(s[1..]) else DefectsIn(s[1..])
    ensures InterruptorsIn(s) ==
      if s[0].Interrupt? then [s[0].fiberId] + InterruptorsIn(s[1..]) else InterruptorsIn(s[1..])
  {}

  lemma {:induction false} OnePart<E>(c: Cause<E>)
    ensures FailsIn([c]) == if c.Fail? then [c.error] else []
    ensures DefectsIn([c]) == if c.Die? then [c.defect] else []
    ensures InterruptorsIn([c]) == if c.Interrupt? then [c.fiberId] else []
  {
    assert [c][1..] == [];
  }

  lemma {:induction false} InterruptedOnlyIff<E>(c: Cause<E>)
    ensures Fold(c, (), InterruptedOnlyReducer()) <==> FailsIn(Leaves(c)) == [] && DefectsIn(Leaves(c)) == []
  {
    if c.Binary() {
      InterruptedOnlyIff(c.left);
      InterruptedOnlyIff(c.right);
      PartsAppend(Leaves(c.left), Leaves(c.right));
    } else if c.Annotated? {
      InterruptedOnlyIff(c.cause);
    } else {
      OnePart(c);
    }
  }

  method Size<E>(self: Cause<E>) returns (n: nat)
    ensures n == |Leaves(self)|
  {
    n := ReduceWithContext(self, (), SizeReducer());
    SizeIsLeafCount(self);
  }

  /** True of causes with neither a failure nor a defect, the empty ones included. */
  method IsInterruptedOnly<E>(self: Cause<E>) returns (b: bool)
    ensures b <==> FailsIn(Leaves(self)) == [] && DefectsIn(Leaves(self)) == []
  {
    b := ReduceWithContext(self, (), InterruptedOnlyReducer());
    InterruptedOnlyIff(self);
  }

  // ----- Pruning filters

  /** What a filter that may drop parts of a cause makes of its childless nodes. */
  datatype Pruner<!E, F> = Pruner(
    onEmpty: Option<Cause<F>>,
    onFail: E -> Option<Cause<F>>,
    onDie: Unknown -> Option<Cause<F>>,
    onInterrupt: Unknown -> Option<Cause<F>>)
  {
    function On(c: Cause<E>): Option<Cause<F>> {
      match c
      case Fail(e) => onFail(e)
      case Die(d) => onDie(d)
      case Interrupt(i) => onInterrupt(i)
      case _ => onEmpty
    }
  }

  function KeepAnnotated<F>(c: Option<Cause<F>>, a: Unknown): Option<Cause<F>> {
    if c == None then None else Some(Annotated(c.value, a))
  }

  function KeepSequential<F>(l: Option<Cause<F>>, r: Option<Cause<F>>): Option<Cause<F>> {
    if l.Some? && r.Some? then Some(Sequential(l.value, r.value)) else if l.Some? then l else r
  }

  function KeepParallel<F>(l: Option<Cause<F>>, r: Option<Cause<F>>): Option<Cause<F>> {
    if l.Some? && r.Some? then Some(Parallel(l.value, r.value)) else if l.Some? then l else r
  }

  function PruneReducer<E, F>(p: Pruner<E, F>): Reducer<(), E, Option<Cause<F>>> {
    Reducer(_ => p.onEmpty, (_, e) => p.onFail(e), (_, d) => p.onDie(d), (_, i) => p.onInterrupt(i),
            (_, c, a) => KeepAnnotated(c, a), (_, l, r) => KeepSequential(l, r), (_, l, r) => KeepParallel(l, r))
  }

  function Prune<E, F>(c: Cause<E>, p: Pruner<E, F>): Option<Cause<F>> {
    Fold(c, (), PruneReducer(p))
  }

  ghost function Kept<F>(c: Option<Cause<F>>): seq<Cause<F>> {
    if c == None then [] else Leaves(c.value)
  }

  ghost predicate HasEmpty<E>(c: Cause<E>) {
    match c
    case Empty => true
    case Annotated(d, _) => HasEmpty(d)
    case Sequential(l, r) => HasEmpty(l) || HasEmpty(r)
    case Parallel(l, r) => HasEmpty(l) || HasEmpty(r)
    case _ => false
  }

  ghost predicate AllDropped<E, F>(s: seq<Cause<E>>, p: Pruner<E, F>) {
    forall i :: 0 <= i < |s| ==> p.On(s[i]) == None
  }

  lemma AllDroppedAppend<E, F>(a: seq<Cause<E>>, b: seq<Cause<E>>, p: Pruner<E, F>)
    ensures AllDropped(a + b, p) <==> AllDropped(a, p) && AllDropped(b, p)
  {
    forall i | 0 <= i < |b| ensures (a + b)[|a| + i] == b[i] {}
    if AllDropped(a + b, p) {
      forall i | 0 <= i < |a| ensures p.On(a[i]) == None { assert (a + b)[i] == a[i]; }
      forall i | 0 <= i < |b| ensures p.On(b[i]) == None { assert (a + b)[|a| + i] == b[i]; }
    }
  }

  ghost function Images<E, F>(s: seq<Cause<E>>, p: Pruner<E, F>): seq<Cause<F>> {
    if s == [] then [] else Kept(p.On(s[0])) + Images(s[1..], p)
  }

  lemma {:induction false} ImagesAppend<E, F>(a: seq<Cause<E>>, b: seq<Cause<E>>, p: Pruner<E, F>)
    ensures Images(a + b, p) == Images(a, p) + Images(b, p)
  {
    if a == [] {
      assert a + b == b;
    } else {
      assert (a + b)[1..] == a[1..] + b;
      ImagesAppend(a[1..], b, p);
    }
  }

  /** Pruning treats every leaf on its own and keeps their order; it leaves nothing exactly when every
      leaf is dropped and no empty node is kept. */
  lemma {:induction false} PruneLeaves<E, F>(c: Cause<E>, p: Pruner<E, F>)
    requires Kept(p.onEmpty) == []
    ensures PrunedTo(c, Prune(c, p), p)
  {
    if c.Binary() {
      PruneLeaves(c.left, p);
      PruneLeaves(c.right, p);
      PruneBoth(c, p);
    } else if c.Annotated? {
      PruneLeaves(c.cause, p);
    } else if c.Leaf() {
      assert Leaves(c) == [c] && Leaves(c)[0] == c && [c][1..] == [];
    }
  }

  ghost predicate PrunedTo<E, F>(c: Cause<E>, r: Option<Cause<F>>, p: Pruner<E, F>) {
    && Kept(r) == Images(Leaves(c), p)
    && (r == None <==> AllDropped(Leaves(c), p) && (HasEmpty(c) ==> p.onEmpty == None))
  }

  lemma {:induction false} PruneBoth<E, F>(c: Cause<E>, p: Pruner<E, F>)
    requires c.Binary() && PrunedTo(c.left, Prune(c.left, p), p) && PrunedTo(c.right, Prune(c.right, p), p)
    ensures PrunedTo(c, Prune(c, p), p)
  {
    var a, b, l, r := Leaves(c.left), Leaves(c.right), Prune(c.left, p), Prune(c.right, p);
    ImagesAppend(a, b, p);
    AllDroppedAppend(a, b, p);
    assert Leaves(c) == a + b;
    var k := if c.Sequential? then KeepSequential(l, r) else KeepParallel(l, r);
    assert Prune(c, p) == k;
    KeptBoth(l, r);
    assert Kept(k) == Kept(l) + Kept(r) && (k == None <==> l == None && r == None);
  }

  lemma {:induction false} KeptBoth<F>(l: Option<Cause<F>>, r: Option<Cause<F>>)
    ensures Kept(KeepSequential(l, r)) == Kept(KeepParallel(l, r)) == Kept(l) + Kept(r)
    ensures KeepSequential(l, r) == None <==> l == None && r == None
    ensures KeepParallel(l, r) == None <==> l == None && r == None
  {}

  // The four filters of this kind

  function DefectKeeper<E>(): Pruner<E, Unknown> {
    Pruner(None, _ => None, d => Some(Die(d)), _ => None)
  }

  function Elector(): Pruner<Unknown, Unknown> {
    Pruner(None, e => Some(Die(e)), d => Some(Die(d)), _ => None)
  }

  function DefectStripper<E>(pf: Unknown -> Option<Unknown>): Pruner<E, E> {
    Pruner(Some(Empty), e => Some(Fail(e)), d => if pf(d).Some? then None else Some(Die(d)), i => Some(Interrupt(i)))
  }

  function Flipper<E>(): Pruner<Option<E>, E> {
    Pruner(Some(Empty), (e: Option<E>) => if e.Some? then Some(Fail(e.value)) else None, d => Some(Die(d)),
           i => Some(Interrupt(i)))
  }

  /** Failures and defects alike, in order. */
  ghost function ElectedIn(s: seq<Cause<Unknown>>): seq<Unknown> {
    if s == [] then []
    else (if s[0].Fail? then [s[0].error] else if s[0].Die? then [s[0].defect] else []) + ElectedIn(s[1..])
  }

  ghost function NotMatched(ds: seq<Unknown>, pf: Unknown -> Option<Unknown>): seq<Unknown> {
    if ds == [] then [] else (if pf(ds[0]).Some? then [] else [ds[0]]) + NotMatched(ds[1..], pf)
  }

  lemma NotMatchedCons(d: Unknown, ds: seq<Unknown>, pf: Unknown -> Option<Unknown>)
    ensures NotMatched([d] + ds, pf) == (if pf(d).Some? then [] else [d]) + NotMatched(ds, pf)
  {
    assert ([d] + ds)[1..] == ds;
  }

  lemma SomesCons<E>(e: Option<E>, es: seq<Option<E>>)
    ensures SomesIn([e] + es) == (if e.Some? then [e.value] else []) + SomesIn(es)
  {
    assert ([e] + es)[1..] == es;
  }

  ghost function SomesIn<E>(es: seq<Option<E>>): seq<E> {
    if es == [] then [] else (if es[0].Some? then [es[0].value] else []) + SomesIn(es[1..])
  }

  lemma {:induction false} KeptDefects<E>(s: seq<Cause<E>>)
    ensures FailsIn(Images(s, DefectKeeper())) == [] && InterruptorsIn(Images(s, DefectKeeper())) == []
    ensures DefectsIn(Images(s, DefectKeeper())) == DefectsIn(s)
    ensures AllDropped(s, DefectKeeper()) <==> DefectsIn(s) == []
  {
    if s == [] {
    } else {
      KeptDefects(s[1..]);
      SplitImages(s, DefectKeeper<E>());
    }
  }

  /** The first leaf and the others contribute separately. */
  lemma {:induction false} SplitImages<E, F>(s: seq<Cause<E>>, p: Pruner<E, F>)
    requires s != []
    ensures FailsIn(Images(s, p)) == FailsIn(Kept(p.On(s[0]))) + FailsIn(Images(s[1..], p))
    ensures DefectsIn(Images(s, p)) == DefectsIn(Kept(p.On(s[0]))) + DefectsIn(Images(s[1..], p))
    ensures InterruptorsIn(Images(s, p)) == InterruptorsIn(Kept(p.On(s[0]))) + InterruptorsIn(Images(s[1..], p))
    ensures AllDropped(s, p) <==> p.On(s[0]) == None && AllDropped(s[1..], p)
  {
    PartsAppend(Kept(p.On(s[0])), Images(s[1..], p));
    assert s == [s[0]] + s[1..];
    AllDroppedAppend([s[0]], s[1..], p);
    assert AllDropped([s[0]], p) <==> p.On([s[0]][0]) == None;
  }

  lemma {:induction false} ElectedDefects(s: seq<Cause<Unknown>>)
    ensures FailsIn(Images(s, Elector())) == [] && InterruptorsIn(Images(s, Elector())) == []
    ensures DefectsIn(Images(s, Elector())) == ElectedIn(s)
    ensures AllDropped(s, Elector()) <==> ElectedIn(s) == []
  {
    if s == [] {
    } else {
      ElectedDefects(s[1..]);
      SplitImages(s, Elector());
      ElectedOne(s[0]);
    }
  }

  lemma {:induction false} ElectedOne(c: Cause<Unknown>)
    ensures var k := Elector().On(c);
      && FailsIn(Kept(k)) == [] && InterruptorsIn(Kept(k)) == []
      && DefectsIn(Kept(k)) == (if c.Fail? then [c.error] else if c.Die? then [c.defect] else [])
      && (k == None <==> !c.Fail? && !c.Die?)
  {}

  lemma {:induction false} StrippedDefects<E>(s: seq<Cause<E>>, pf: Unknown -> Option<Unknown>)
    requires forall i :: 0 <= i < |s| ==> s[i].Leaf()
    ensures FailsIn(Images(s, DefectStripper(pf))) == FailsIn(s)
    ensures InterruptorsIn(Images(s, DefectStripper(pf))) == InterruptorsIn(s)
    ensures DefectsIn(Images(s, DefectStripper(pf))) == NotMatched(DefectsIn(s), pf)
    ensures AllDropped(s, DefectStripper(pf)) <==>
      FailsIn(s) == [] && InterruptorsIn(s) == [] && NotMatched(DefectsIn(s), pf) == []
  {
    if s == [] {
    } else {
      StrippedDefects(s[1..], pf);
      SplitImages(s, DefectStripper<E>(pf));
      OnePart(s[0]);
      PartsCons(s);
      if s[0].Die? { NotMatchedCons(s[0].defect, DefectsIn(s[1..]), pf); }
    }
  }

  lemma {:induction false} FlippedFailures<E>(s: seq<Cause<Option<E>>>)
    requires forall i :: 0 <= i < |s| ==> s[i].Leaf()
    ensures FailsIn(Images(s, Flipper())) == SomesIn(FailsIn(s))
    ensures InterruptorsIn(Images(s, Flipper())) == InterruptorsIn(s)
    ensures DefectsIn(Images(s, Flipper())) == DefectsIn(s)
    ensures AllDropped(s, Flipper()) <==>
      SomesIn(FailsIn(s)) == [] && InterruptorsIn(s) == [] && DefectsIn(s) == []
  {
    if s == [] {
    } else {
      FlippedFailures(s[1..]);
      SplitImages(s, Flipper<E>());
      PartsCons(s);
      match s[0]
      case Fail(e) =>
        SomesCons(e, FailsIn(s[1..]));
        if e.Some? { OnePart<E>(Fail(e.value)); }
      case Die(d) => OnePart<E>(Die(d));
      case Interrupt(i) => OnePart<E>(Interrupt(i));
    }
  }

  /** The defects alone; nothing when there are none. */
  method KeepDefects<E>(self: Cause<E>) returns (r: Option<Cause<Unknown>>)
    ensures r == Prune(self, DefectKeeper())
    ensures r == None <==> DefectsIn(Leaves(self)) == []
    ensures FailsIn(Kept(r)) == [] && InterruptorsIn(Kept(r)) == []
    ensures DefectsIn(Kept(r)) == DefectsIn(Leaves(self))
  {
    r := ReduceWithContext(self, (), PruneReducer(DefectKeeper()));
    PruneLeaves(self, DefectKeeper<E>());
    KeptDefects(Leaves(self));
  }

  /** The failures and defects, all as defects; nothing when there are none. */
  method KeepDefectsAndElectFailures(self: Cause<Unknown>) returns (r: Option<Cause<Unknown>>)
    ensures r == Prune(self, Elector())
    ensures r == None <==> ElectedIn(Leaves(self)) == []
    ensures FailsIn(Kept(r)) == [] && InterruptorsIn(Kept(r)) == []
    ensures DefectsIn(Kept(r)) == ElectedIn(Leaves(self))
  {
    r := ReduceWithContext(self, (), PruneReducer(Elector()));
    PruneLeaves(self, Elector());
    ElectedDefects(Leaves(self));
  }

  /** Everything but the matched defects; nothing when only matched defects were there. */
  method StripSomeDefects<E>(self: Cause<E>, pf: Unknown -> Option<Unknown>) returns (r: Option<Cause<E>>)
    ensures r == Prune(self, DefectStripper(pf))
    ensures FailsIn(Kept(r)) == FailsIn(Leaves(self)) && InterruptorsIn(Kept(r)) == InterruptorsIn(Leaves(self))
    ensures DefectsIn(Kept(r)) == NotMatched(DefectsIn(Leaves(self)), pf)
    ensures r == None <==>
      (!HasEmpty(self) && FailsIn(Leaves(self)) == [] && InterruptorsIn(Leaves(self)) == [] &&
       NotMatched(DefectsIn(Leaves(self)), pf) == [])
  {
    r := ReduceWithContext(self, (), PruneReducer(DefectStripper(pf)));
    PruneLeaves(self, DefectStripper<E>(pf));
    LeavesAreLeaves(self);
    StrippedDefects(Leaves(self), pf);
  }

  /** Drops the failures without a value; nothing when only those were there. */
  method FlipCauseOption<E>(self: Cause<Option<E>>) returns (r: Option<Cause<E>>)
    ensures r == Prune(self, Flipper())
    ensures FailsIn(Kept(r)) == SomesIn(FailsIn(Leaves(self)))
    ensures InterruptorsIn(Kept(r)) == InterruptorsIn(Leaves(self)) && DefectsIn(Kept(r)) == DefectsIn(Leaves(self))
    ensures r == None <==>
      (!HasEmpty(self) && SomesIn(FailsIn(Leaves(self))) == [] && InterruptorsIn(Leaves(self)) == [] &&
       DefectsIn(Leaves(self)) == [])
  {
    r := ReduceWithContext(self, (), PruneReducer(Flipper()));
    PruneLeaves(self, Flipper<E>());
    LeavesAreLeaves(self);
    FlippedFailures(Leaves(self));
  }

  // ----- Substituting filters

  datatype Annotations = Retained | Collapsed | Removed

  function Annotate<F>(mode: Annotations, c: Cause<F>, a: Unknown): Cause<F> {
    match mode
    case Retained => Annotated(c, a)
    case Collapsed => if c.Empty? then c else Annotated(c, a)
    case Removed => c
  }

  /** Replaces the failures and keeps the shape. */
  function SubstReducer<E, F>(f: E -> Cause<F>, mode: Annotations): Reducer<(), E, Cause<F>> {
    Reducer(_ => Empty, (_, e) => f(e), (_, d) => Die(d), (_, i) => Interrupt(i),
            (_, c, a) => Annotate(mode, c, a), (_, l, r) => Sequential(l, r), (_, l, r) => Parallel(l, r))
  }

  function Subst<E, F>(c: Cause<E>, f: E -> Cause<F>, mode: Annotations): Cause<F> {
    Fold(c, (), SubstReducer(f, mode))
  }

  ghost function SubstitutedLeaf<E, F>(c: Cause<E>, f: E -> Cause<F>): seq<Cause<F>> {
    match c
    case Fail(e) => Leaves(f(e))
    case Die(d) => [Die(d)]
    case Interrupt(i) => [Interrupt(i)]
    case _ => []
  }

  ghost function Substituted<E, F>(s: seq<Cause<E>>, f: E -> Cause<F>): seq<Cause<F>> {
    if s == [] then [] else SubstitutedLeaf(s[0], f) + Substituted(s[1..], f)
  }

  /** The first leaf and the others contribute separately. */
  lemma {:induction false} SplitSubstituted<E, F>(s: seq<Cause<E>>, f: E -> Cause<F>)
    requires s != []
    ensures FailsIn(Substituted(s, f)) == FailsIn(SubstitutedLeaf(s[0], f)) + FailsIn(Substituted(s[1..], f))
    ensures DefectsIn(Substituted(s, f)) == DefectsIn(SubstitutedLeaf(s[0], f)) + DefectsIn(Substituted(s[1..], f))
    ensures InterruptorsIn(Substituted(s, f)) ==
      InterruptorsIn(SubstitutedLeaf(s[0], f)) + InterruptorsIn(Substituted(s[1..], f))
    ensures s[0].Die? || s[0].Interrupt? ==>
      (FailsIn(SubstitutedLeaf(s[0], f)) == [] &&
       DefectsIn(SubstitutedLeaf(s[0], f)) == (if s[0].Die? then [s[0].defect] else []) &&
       InterruptorsIn(SubstitutedLeaf(s[0], f)) == (if s[0].Interrupt? then [s[0].fiberId] else []))
  {
    PartsAppend(SubstitutedLeaf(s[0], f), Substituted(s[1..], f));
    if s[0].Die? { OnePart<F>(Die(s[0].defect)); }
    if s[0].Interrupt? { OnePart<F>(Interrupt(s[0].fiberId)); }
  }

  lemma {:induction false} SubstitutedAppend<E, F>(a: seq<Cause<E>>, b: seq<Cause<E>>, f: E -> Cause<F>)
    ensures Substituted(a + b, f) == Substituted(a, f) + Substituted(b, f)
  {
    if a == [] {
      assert a + b == b;
    } else {
      assert (a + b)[1..] == a[1..] + b;
      SubstitutedAppend(a[1..], b, f);
    }
  }

  lemma {:induction false} SubstLeaves<E, F>(c: Cause<E>, f: E -> Cause<F>, mode: Annotations)
    ensures Leaves(Subst(c, f, mode)) == Substituted(Leaves(c), f)
  {
    if c.Binary() {
      SubstLeaves(c.left, f, mode);
      SubstLeaves(c.right, f, mode);
      SubstitutedAppend(Leaves(c.left), Leaves(c.right), f);
    } else if c.Annotated? {
      SubstLeaves(c.cause, f, mode);
    } else if c.Leaf() {
      assert Leaves(c) == [c] && [c][1..] == [];
    }
  }

  ghost function FailsOfImages<E, F>(es: seq<E>, f: E -> Cause<F>): seq<F> {
    if es == [] then [] else FailsIn(Leaves(f(es[0]))) + FailsOfImages(es[1..], f)
  }

  lemma {:induction false} SubstitutedFails<E, F>(s: seq<Cause<E>>, f: E -> Cause<F>)
    ensures FailsIn(Substituted(s, f)) == FailsOfImages(FailsIn(s), f)
  {
    if s == [] {
    } else {
      SubstitutedFails(s[1..], f);
      SplitSubstituted(s, f);
      PartsCons(s);
      if s[0].Fail? { assert ([s[0].error] + FailsIn(s[1..]))[1..] == FailsIn(s[1..]); }
    }
  }

  /** Every failure is replaced in place; the failures of the result are those of the replacements. */
  method FlatMapCause<E, F>(self: Cause<E>, f: E -> Cause<F>) returns (r: Cause<F>)
    ensures r == Subst(self, f, Retained)
    ensures Leaves(r) == Substituted(Leaves(self), f)
    ensures FailsIn(Leaves(r)) == FailsOfImages(FailsIn(Leaves(self)), f)
  {
    r := ReduceWithContext(self, (), SubstReducer(f, Retained));
    SubstLeaves(self, f, Retained);
    SubstitutedFails(Leaves(self), f);
  }

  function ToEmpty(e: Unknown): Cause<Unknown> { Empty }

  function ToDefect(e: Unknown): Cause<Unknown> { Die(e) }

  function ToItself<E>(e: E): Cause<E> { Fail(e) }

  lemma {:induction false} StrippedParts(s: seq<Cause<Unknown>>)
    ensures FailsIn(Substituted(s, ToEmpty)) == []
    ensures DefectsIn(Substituted(s, ToEmpty)) == DefectsIn(s)
    ensures InterruptorsIn(Substituted(s, ToEmpty)) == InterruptorsIn(s)
  {
    if s == [] {
    } else {
      StrippedParts(s[1..]);
      SplitSubstituted(s, ToEmpty);
    }
  }

  lemma {:induction false} ElectedParts(s: seq<Cause<Unknown>>)
    ensures FailsIn(Substituted(s, ToDefect)) == []
    ensures DefectsIn(Substituted(s, ToDefect)) == ElectedIn(s)
    ensures InterruptorsIn(Substituted(s, ToDefect)) == InterruptorsIn(s)
  {
    if s == [] {
    } else {
      ElectedParts(s[1..]);
      SplitSubstituted(s, ToDefect);
      if s[0].Fail? { OnePart(ToDefect(s[0].error)); }
    }
  }

  lemma {:induction false} SubstitutedItself<E>(s: seq<Cause<E>>)
    requires forall i :: 0 <= i < |s| ==> s[i].Leaf()
    ensures Substituted(s, ToItself) == s
  {
    if s == [] {
    } else {
      SubstitutedItself(s[1..]);
    }
  }

  method StripFailures(self: Cause<Unknown>) returns (r: Cause<Unknown>)
    ensures r == Subst(self, ToEmpty, Collapsed) && Leaves(r) == Substituted(Leaves(self), ToEmpty)
    ensures FailsIn(Leaves(r)) == []
    ensures DefectsIn(Leaves(r)) == DefectsIn(Leaves(self))
    ensures InterruptorsIn(Leaves(r)) == InterruptorsIn(Leaves(self))
  {
    r := ReduceWithContext(self, (), SubstReducer(ToEmpty, Collapsed));
    SubstLeaves(self, ToEmpty, Collapsed);
    StrippedParts(Leaves(self));
  }

  method ElectFailures(self: Cause<Unknown>) returns (r: Cause<Unknown>)
    ensures r == Subst(self, ToDefect, Collapsed) && Leaves(r) == Substituted(Leaves(self), ToDefect)
    ensures FailsIn(Leaves(r)) == []
    ensures DefectsIn(Leaves(r)) == ElectedIn(Leaves(self))
    ensures InterruptorsIn(Leaves(r)) == InterruptorsIn(Leaves(self))
  {
    r := ReduceWithContext(self, (), SubstReducer(ToDefect, Collapsed));
    SubstLeaves(self, ToDefect, Collapsed);
    ElectedParts(Leaves(self));
  }

  function Unannotated<E>(c: Cause<E>): Cause<E> {
    Subst(c, ToItself, Removed)
  }

  ghost predicate HasAnnotation<E>(c: Cause<E>) {
    match c
    case Annotated(_, _) => true
    case Sequential(l, r) => HasAnnotation(l) || HasAnnotation(r)
    case Parallel(l, r) => HasAnnotation(l) || HasAnnotation(r)
    case _ => false
  }

  lemma {:induction false} UnannotatedHasNone<E>(c: Cause<E>)
    ensures !HasAnnotation(Unannotated(c))
    ensures !HasAnnotation(c) ==> Unannotated(c) == c
  {
    if c.Binary() {
      UnannotatedHasNone(c.left);
      UnannotatedHasNone(c.right);
    } else if c.Annotated? {
      UnannotatedHasNone(c.cause);
      assert Unannotated(c) == Unannotated(c.cause);
    } else if c.Fail? {
      assert Unannotated(c) == ToItself(c.error);
    } else {
      assert Unannotated(c) == c;
    }
  }

  method Unannotate<E>(self: Cause<E>) returns (r: Cause<E>)
    ensures r == Unannotated(self) && !HasAnnotation(r) && Leaves(r) == Leaves(self)
  {
    r := ReduceWithContext(self, (), SubstReducer(ToItself, Removed));
    SubstLeaves(self, ToItself, Removed);
    LeavesAreLeaves(self);
    SubstitutedItself(Leaves(self));
    UnannotatedHasNone(self);
  }
}
