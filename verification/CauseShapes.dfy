/** What the filters of causes do to the way in which leaves are composed. */
module CauseShapes {
  import opened Options
  import opened Causes
  import opened CauseFilters
  import opened CauseEvaluation

  /** Some sequential, respectively parallel, node has leaf `a` on its left and leaf `b` on its right. */
  ghost predicate Related<E(!new)>(c: Cause<E>, sequential: bool, a: Cause<E>, b: Cause<E>) {
    match c
    case Annotated(d, _) => Related(d, sequential, a, b)
    case Sequential(l, r) =>
      Related(l, sequential, a, b) || Related(r, sequential, a, b) || (sequential && a in Leaves(l) && b in Leaves(r))
    case Parallel(l, r) =>
      Related(l, sequential, a, b) || Related(r, sequential, a, b) || (!sequential && a in Leaves(l) && b in Leaves(r))
    case _ => false
  }

  // ----- Pruning

  ghost predicate KeptRelated<F(!new)>(r: Option<Cause<F>>, sequential: bool, a: Cause<F>, b: Cause<F>) {
    r.Some? && Related(r.value, sequential, a, b)
  }

  /** Leaves are kept as leaves, and empty nodes as empty nodes, or dropped. */
  ghost predicate LeafByLeaf<E(!new), F(!new)>(p: Pruner<E, F>) {
    && (p.onEmpty.Some? ==> p.onEmpty.value == Empty)
    && (forall c: Cause<E> :: c.Leaf() && p.On(c).Some? ==> p.On(c).value.Leaf())
  }

  /** `x` and `y`, so related, are kept as `a` and `b`. */
  ghost predicate Source<E(!new), F(!new)>(c: Cause<E>, p: Pruner<E, F>, sequential: bool,
                                           a: Cause<F>, b: Cause<F>, x: Cause<E>, y: Cause<E>) {
    Related(c, sequential, x, y) && p.On(x) == Some(a) && p.On(y) == Some(b)
  }

  ghost predicate HasSource<E(!new), F(!new)>(c: Cause<E>, p: Pruner<E, F>, sequential: bool, a: Cause<F>,
      b: Cause<F>) {
    exists x, y :: Source(c, p, sequential, a, b, x, y)
  }

  lemma {:induction false} RelatedAbove<E(!new)>(c: Cause<E>, sequential: bool, a: Cause<E>, b: Cause<E>)
    requires c.Binary()
    ensures Related(c, sequential, a, b) <==>
      Related(c.left, sequential, a, b) || Related(c.right, sequential, a, b) ||
      (sequential == c.Sequential? && a in Leaves(c.left) && b in Leaves(c.right))
  {}

  ghost predicate KeptFrom<E(!new), F(!new)>(s: seq<Cause<E>>, p: Pruner<E, F>, a: Cause<F>) {
    exists x :: x in s && p.On(x) == Some(a)
  }

  lemma {:induction false} ImageOf<E(!new), F(!new)>(s: seq<Cause<E>>, p: Pruner<E, F>, a: Cause<F>)
    requires LeafByLeaf(p) && forall i :: 0 <= i < |s| ==> s[i].Leaf()
    ensures a in Images(s, p) <==> KeptFrom(s, p, a)
  {
    if s == [] {
    } else {
      ImageOf(s[1..], p, a);
      assert s == [s[0]] + s[1..];
      if p.On(s[0]).Some? {
        var k := p.On(s[0]).value;
        assert Leaves(k) == [k];
      }
    }
  }

  lemma {:induction false} KeptLeaf<E(!new), F(!new)>(c: Cause<E>, p: Pruner<E, F>, a: Cause<F>)
    requires LeafByLeaf(p) && Kept(p.onEmpty) == []
    ensures a in Kept(Prune(c, p)) <==> KeptFrom(Leaves(c), p, a)
  {
    PruneLeaves(c, p);
    LeavesAreLeaves(c);
    ImageOf(Leaves(c), p, a);
  }

  lemma {:induction false} SourceBelow<E(!new), F(!new)>(c: Cause<E>, p: Pruner<E, F>, sequential: bool, a: Cause<F>,
      b: Cause<F>)
    requires c.Binary() && HasSource(c, p, sequential, a, b)
    ensures HasSource(c.left, p, sequential, a, b) || HasSource(c.right, p, sequential, a, b) ||
      (sequential == c.Sequential? && KeptFrom(Leaves(c.left), p, a) && KeptFrom(Leaves(c.right), p, b))
  {
    var x, y :| Source(c, p, sequential, a, b, x, y);
    RelatedAbove(c, sequential, x, y);
    if Related(c.left, sequential, x, y) {
      assert Source(c.left, p, sequential, a, b, x, y);
    } else if Related(c.right, sequential, x, y) {
      assert Source(c.right, p, sequential, a, b, x, y);
    }
  }

  lemma {:induction false} SourceLifted<E(!new), F(!new)>(
      c: Cause<E>, part: Cause<E>, p: Pruner<E, F>, sequential: bool, a: Cause<F>, b: Cause<F>)
    requires c.Binary() && (part == c.left || part == c.right) && HasSource(part, p, sequential, a, b)
    ensures HasSource(c, p, sequential, a, b)
  {
    var x, y :| Source(part, p, sequential, a, b, x, y);
    RelatedAbove(c, sequential, x, y);
    assert Source(c, p, sequential, a, b, x, y);
  }

  lemma {:induction false} SourceAcross<E(!new), F(!new)>(c: Cause<E>, p: Pruner<E, F>, sequential: bool, a: Cause<F>,
      b: Cause<F>)
    requires c.Binary() && sequential == c.Sequential?
    requires KeptFrom(Leaves(c.left), p, a) && KeptFrom(Leaves(c.right), p, b)
    ensures HasSource(c, p, sequential, a, b)
  {
    var x :| x in Leaves(c.left) && p.On(x) == Some(a);
    var y :| y in Leaves(c.right) && p.On(y) == Some(b);
    RelatedAbove(c, sequential, x, y);
    assert Source(c, p, sequential, a, b, x, y);
  }

  lemma {:induction false} KeptRelatedAbove<E(!new), F(!new)>(c: Cause<E>, p: Pruner<E, F>, sequential: bool,
      a: Cause<F>, b: Cause<F>)
    requires c.Binary()
    ensures KeptRelated(Prune(c, p), sequential, a, b) <==>
      KeptRelated(Prune(c.left, p), sequential, a, b) || KeptRelated(Prune(c.right, p), sequential, a, b) ||
      (sequential == c.Sequential? && a in Kept(Prune(c.left, p)) && b in Kept(Prune(c.right, p)))
  {
    var l, r := Prune(c.left, p), Prune(c.right, p);
    assert Prune(c, p) == if c.Sequential? then KeepSequential(l, r) else KeepParallel(l, r);
    if l.Some? && r.Some? { RelatedAbove(Prune(c, p).value, sequential, a, b); }
  }

  /** Two leaves that are kept stay composed as they were, and no other leaves become so composed. */
  lemma {:induction false} PruneKeepsComposition<E(!new), F(!new)>(
      c: Cause<E>, p: Pruner<E, F>, sequential: bool, a: Cause<F>, b: Cause<F>)
    requires LeafByLeaf(p) && Kept(p.onEmpty) == []
    ensures KeptRelated(Prune(c, p), sequential, a, b) <==> HasSource(c, p, sequential, a, b)
    decreases c
  {
    if c.Binary() {
      PruneKeepsComposition(c.left, p, sequential, a, b);
      PruneKeepsComposition(c.right, p, sequential, a, b);
      KeptRelatedAbove(c, p, sequential, a, b);
      KeptLeaf(c.left, p, a);
      KeptLeaf(c.right, p, b);
      SourceAbove(c, p, sequential, a, b);
    } else if c.Annotated? {
      PruneKeepsComposition(c.cause, p, sequential, a, b);
      SourceOfAnnotated(c, p, sequential, a, b);
      KeptAnnotated(c, p, sequential, a, b);
    } else {
      NothingRelated(c, p, sequential, a, b);
    }
  }

  lemma {:induction false} SourceAbove<E(!new), F(!new)>(c: Cause<E>, p: Pruner<E, F>, sequential: bool, a: Cause<F>,
      b: Cause<F>)
    requires c.Binary()
    ensures HasSource(c, p, sequential, a, b) <==>
      HasSource(c.left, p, sequential, a, b) || HasSource(c.right, p, sequential, a, b) ||
      (sequential == c.Sequential? && KeptFrom(Leaves(c.left), p, a) && KeptFrom(Leaves(c.right), p, b))
  {
    if HasSource(c, p, sequential, a, b) { SourceBelow(c, p, sequential, a, b); }
    if HasSource(c.left, p, sequential, a, b) { SourceLifted(c, c.left, p, sequential, a, b); }
    if HasSource(c.right, p, sequential, a, b) { SourceLifted(c, c.right, p, sequential, a, b); }
    if sequential == c.Sequential? && KeptFrom(Leaves(c.left), p, a) && KeptFrom(Leaves(c.right), p, b) {
      SourceAcross(c, p, sequential, a, b);
    }
  }

  lemma {:induction false} SourceOfAnnotated<E(!new), F(!new)>(
      c: Cause<E>, p: Pruner<E, F>, sequential: bool, a: Cause<F>, b: Cause<F>)
    requires c.Annotated?
    ensures HasSource(c, p, sequential, a, b) <==> HasSource(c.cause, p, sequential, a, b)
  {
    var d := c.cause;
    if HasSource(d, p, sequential, a, b) {
      var x, y :| Source(d, p, sequential, a, b, x, y);
      assert Source(c, p, sequential, a, b, x, y);
    } else {
      forall x, y ensures !Source(c, p, sequential, a, b, x, y) {
        assert !Source(d, p, sequential, a, b, x, y);
      }
    }
  }

  lemma {:induction false} KeptAnnotated<E(!new), F(!new)>(
      c: Cause<E>, p: Pruner<E, F>, sequential: bool, a: Cause<F>, b: Cause<F>)
    requires c.Annotated?
    ensures KeptRelated(Prune(c, p), sequential, a, b) <==> KeptRelated(Prune(c.cause, p), sequential, a, b)
  {
    assert Prune(c, p) == KeepAnnotated(Prune(c.cause, p), c.annotation);
  }

  lemma {:induction false} NothingRelated<E(!new), F(!new)>(
      c: Cause<E>, p: Pruner<E, F>, sequential: bool, a: Cause<F>, b: Cause<F>)
    requires LeafByLeaf(p) && !c.Binary() && !c.Annotated?
    ensures !KeptRelated(Prune(c, p), sequential, a, b) && !HasSource(c, p, sequential, a, b)
  {
    assert Prune(c, p) == p.On(c);
  }

  /** All four pruning filters work leaf by leaf. */
  lemma {:induction false} FiltersAreLeafByLeaf<E(!new)>(pf: Unknown -> Option<Unknown>)
    ensures LeafByLeaf(DefectKeeper<E>()) && LeafByLeaf(Elector())
    ensures LeafByLeaf(DefectStripper<E>(pf)) && LeafByLeaf(Flipper<E>())
  {}

  // ----- Substituting

  ghost predicate FailsWith<E(!new), F(!new)>(c: Cause<E>, f: E -> Cause<F>, sequential: bool, a: Cause<F>,
      b: Cause<F>, e: E) {
    Fail(e) in Leaves(c) && Related(f(e), sequential, a, b)
  }

  ghost predicate FailsWithRelated<E(!new), F(!new)>(c: Cause<E>, f: E -> Cause<F>, sequential: bool, a: Cause<F>,
      b: Cause<F>) {
    exists e :: FailsWith(c, f, sequential, a, b, e)
  }

  ghost predicate Replaced<E(!new), F(!new)>(c: Cause<E>, f: E -> Cause<F>, sequential: bool,
                                             a: Cause<F>, b: Cause<F>, x: Cause<E>, y: Cause<E>) {
    Related(c, sequential, x, y) && a in SubstitutedLeaf(x, f) && b in SubstitutedLeaf(y, f)
  }

  ghost predicate HasReplaced<E(!new), F(!new)>(c: Cause<E>, f: E -> Cause<F>, sequential: bool, a: Cause<F>,
      b: Cause<F>) {
    exists x, y :: Replaced(c, f, sequential, a, b, x, y)
  }

  ghost predicate ReplacedFrom<E(!new), F(!new)>(s: seq<Cause<E>>, f: E -> Cause<F>, a: Cause<F>) {
    exists x :: x in s && a in SubstitutedLeaf(x, f)
  }

  lemma {:induction false} SubstitutedOf<E(!new), F(!new)>(s: seq<Cause<E>>, f: E -> Cause<F>, a: Cause<F>)
    ensures a in Substituted(s, f) <==> ReplacedFrom(s, f, a)
  {
    if s == [] {
    } else {
      SubstitutedOf(s[1..], f, a);
      assert s == [s[0]] + s[1..];
    }
  }

  lemma {:induction false} ReplacedBelow<E(!new), F(!new)>(c: Cause<E>, f: E -> Cause<F>, sequential: bool,
      a: Cause<F>, b: Cause<F>)
    requires c.Binary() && HasReplaced(c, f, sequential, a, b)
    ensures HasReplaced(c.left, f, sequential, a, b) || HasReplaced(c.right, f, sequential, a, b) ||
      (sequential == c.Sequential? && ReplacedFrom(Leaves(c.left), f, a) && ReplacedFrom(Leaves(c.right), f, b))
  {
    var x, y :| Replaced(c, f, sequential, a, b, x, y);
    RelatedAbove(c, sequential, x, y);
    if Related(c.left, sequential, x, y) {
      assert Replaced(c.left, f, sequential, a, b, x, y);
    } else if Related(c.right, sequential, x, y) {
      assert Replaced(c.right, f, sequential, a, b, x, y);
    }
  }

  lemma {:induction false} ReplacedLifted<E(!new), F(!new)>(
      c: Cause<E>, part: Cause<E>, f: E -> Cause<F>, sequential: bool, a: Cause<F>, b: Cause<F>)
    requires c.Binary() && (part == c.left || part == c.right) && HasReplaced(part, f, sequential, a, b)
    ensures HasReplaced(c, f, sequential, a, b)
  {
    var x, y :| Replaced(part, f, sequential, a, b, x, y);
    RelatedAbove(c, sequential, x, y);
    assert Replaced(c, f, sequential, a, b, x, y);
  }

  lemma {:induction false} ReplacedAcross<E(!new), F(!new)>(c: Cause<E>, f: E -> Cause<F>, sequential: bool,
      a: Cause<F>, b: Cause<F>)
    requires c.Binary() && sequential == c.Sequential?
    requires ReplacedFrom(Leaves(c.left), f, a) && ReplacedFrom(Leaves(c.right), f, b)
    ensures HasReplaced(c, f, sequential, a, b)
  {
    var x :| x in Leaves(c.left) && a in SubstitutedLeaf(x, f);
    var y :| y in Leaves(c.right) && b in SubstitutedLeaf(y, f);
    RelatedAbove(c, sequential, x, y);
    assert Replaced(c, f, sequential, a, b, x, y);
  }

  lemma {:induction false} ReplacedAbove<E(!new), F(!new)>(c: Cause<E>, f: E -> Cause<F>, sequential: bool,
      a: Cause<F>, b: Cause<F>)
    requires c.Binary()
    ensures HasReplaced(c, f, sequential, a, b) <==>
      HasReplaced(c.left, f, sequential, a, b) || HasReplaced(c.right, f, sequential, a, b) ||
      (sequential == c.Sequential? && ReplacedFrom(Leaves(c.left), f, a) && ReplacedFrom(Leaves(c.right), f, b))
  {
    if HasReplaced(c, f, sequential, a, b) { ReplacedBelow(c, f, sequential, a, b); }
    if HasReplaced(c.left, f, sequential, a, b) { ReplacedLifted(c, c.left, f, sequential, a, b); }
    if HasReplaced(c.right, f, sequential, a, b) { ReplacedLifted(c, c.right, f, sequential, a, b); }
    if sequential == c.Sequential? && ReplacedFrom(Leaves(c.left), f, a) && ReplacedFrom(Leaves(c.right), f, b) {
      ReplacedAcross(c, f, sequential, a, b);
    }
  }

  lemma {:induction false} FailsLifted<E(!new), F(!new)>(
      c: Cause<E>, part: Cause<E>, f: E -> Cause<F>, sequential: bool, a: Cause<F>, b: Cause<F>)
    requires (forall x :: x in Leaves(part) ==> x in Leaves(c)) && FailsWithRelated(part, f, sequential, a, b)
    ensures FailsWithRelated(c, f, sequential, a, b)
  {
    var e :| FailsWith(part, f, sequential, a, b, e);
    assert FailsWith(c, f, sequential, a, b, e);
  }

  lemma {:induction false} LeafOf<E(!new)>(c: Cause<E>, x: Cause<E>)
    requires c.Binary()
    ensures x in Leaves(c) <==> x in Leaves(c.left) || x in Leaves(c.right)
  {
    assert Leaves(c) == Leaves(c.left) + Leaves(c.right);
  }

  lemma {:induction false} FailsBelow<E(!new), F(!new)>(c: Cause<E>, f: E -> Cause<F>, sequential: bool, a: Cause<F>,
      b: Cause<F>)
    requires c.Binary() && FailsWithRelated(c, f, sequential, a, b)
    ensures FailsWithRelated(c.left, f, sequential, a, b) || FailsWithRelated(c.right, f, sequential, a, b)
  {
    var e :| FailsWith(c, f, sequential, a, b, e);
    LeafOf(c, Fail(e));
    if Fail(e) in Leaves(c.left) {
      assert FailsWith(c.left, f, sequential, a, b, e);
    } else {
      assert FailsWith(c.right, f, sequential, a, b, e);
    }
  }

  lemma {:induction false} FailsAbove<E(!new), F(!new)>(c: Cause<E>, f: E -> Cause<F>, sequential: bool, a: Cause<F>,
      b: Cause<F>)
    requires c.Binary()
    ensures FailsWithRelated(c, f, sequential, a, b) <==>
      FailsWithRelated(c.left, f, sequential, a, b) || FailsWithRelated(c.right, f, sequential, a, b)
  {
    forall x ensures x in Leaves(c) <==> x in Leaves(c.left) || x in Leaves(c.right) { LeafOf(c, x); }
    if FailsWithRelated(c.left, f, sequential, a, b) {
      FailsLifted(c, c.left, f, sequential, a, b);
    } else if FailsWithRelated(c.right, f, sequential, a, b) {
      FailsLifted(c, c.right, f, sequential, a, b);
    } else if FailsWithRelated(c, f, sequential, a, b) {
      FailsBelow(c, f, sequential, a, b);
    }
  }

  lemma {:induction false} ReplacedLeaves<E(!new), F(!new)>(c: Cause<E>, f: E -> Cause<F>, mode: Annotations,
      a: Cause<F>)
    ensures a in Leaves(Subst(c, f, mode)) <==> ReplacedFrom(Leaves(c), f, a)
  {
    SubstLeaves(c, f, mode);
    SubstitutedOf(Leaves(c), f, a);
  }

  lemma {:induction false} SubstRelatedAbove<E(!new), F(!new)>(
      c: Cause<E>, f: E -> Cause<F>, mode: Annotations, sequential: bool, a: Cause<F>, b: Cause<F>)
    requires c.Binary()
    ensures Related(Subst(c, f, mode), sequential, a, b) <==>
      Related(Subst(c.left, f, mode), sequential, a, b) || Related(Subst(c.right, f, mode), sequential, a, b) ||
      (sequential == c.Sequential? && ReplacedFrom(Leaves(c.left), f, a) && ReplacedFrom(Leaves(c.right), f, b))
  {
    var l, r := Subst(c.left, f, mode), Subst(c.right, f, mode);
    assert Subst(c, f, mode) == if c.Sequential? then Sequential(l, r) else Parallel(l, r);
    RelatedAbove(Subst(c, f, mode), sequential, a, b);
    ReplacedLeaves(c.left, f, mode, a);
    ReplacedLeaves(c.right, f, mode, b);
  }

  lemma {:induction false} ReplacedInAnnotated<E(!new), F(!new)>(
      c: Cause<E>, f: E -> Cause<F>, sequential: bool, a: Cause<F>, b: Cause<F>)
    requires c.Annotated?
    ensures HasReplaced(c, f, sequential, a, b) <==> HasReplaced(c.cause, f, sequential, a, b)
    ensures FailsWithRelated(c, f, sequential, a, b) <==> FailsWithRelated(c.cause, f, sequential, a, b)
  {
    var d := c.cause;
    assert Leaves(c) == Leaves(d);
    if HasReplaced(d, f, sequential, a, b) {
      var x, y :| Replaced(d, f, sequential, a, b, x, y);
      assert Replaced(c, f, sequential, a, b, x, y);
    } else {
      forall x, y ensures !Replaced(c, f, sequential, a, b, x, y) {
        assert !Replaced(d, f, sequential, a, b, x, y);
      }
    }
    if FailsWithRelated(d, f, sequential, a, b) { FailsLifted(c, d, f, sequential, a, b); }
    if FailsWithRelated(c, f, sequential, a, b) { FailsLifted(d, c, f, sequential, a, b); }
  }

  lemma {:induction false} SubstAnnotated<E(!new), F(!new)>(
      c: Cause<E>, f: E -> Cause<F>, mode: Annotations, sequential: bool, a: Cause<F>, b: Cause<F>)
    requires c.Annotated?
    ensures Related(Subst(c, f, mode), sequential, a, b) <==> Related(Subst(c.cause, f, mode), sequential, a, b)
  {
    assert Subst(c, f, mode) == Annotate(mode, Subst(c.cause, f, mode), c.annotation);
  }

  lemma {:induction false} SubstFail<E(!new), F(!new)>(
      e: E, f: E -> Cause<F>, mode: Annotations, sequential: bool, a: Cause<F>, b: Cause<F>)
    ensures Related(Subst(Fail(e), f, mode), sequential, a, b) <==> FailsWithRelated(Fail(e), f, sequential, a, b)
  {
    assert Leaves(Cause.Fail(e)) == [Fail(e)];
    assert Subst(Fail(e), f, mode) == f(e);
    if Related(f(e), sequential, a, b) {
      assert Fail(e) in Leaves(Cause.Fail(e));
      assert FailsWith(Fail(e), f, sequential, a, b, e);
    } else {
      forall d ensures !FailsWith(Fail(e), f, sequential, a, b, d) {
        assert Fail(d) in Leaves(Cause.Fail(e)) ==> d == e;
      }
    }
  }

  lemma {:induction false} SubstOther<E(!new), F(!new)>(
      c: Cause<E>, f: E -> Cause<F>, mode: Annotations, sequential: bool, a: Cause<F>, b: Cause<F>)
    requires !c.Binary() && !c.Annotated? && !c.Fail?
    ensures !Related(Subst(c, f, mode), sequential, a, b) && !FailsWithRelated(c, f, sequential, a, b)
  {
    var s := Subst(c, f, mode);
    assert !s.Binary() && !s.Annotated?;
    forall e ensures !FailsWith(c, f, sequential, a, b, e) {
      assert Leaves(c) == if c.Leaf() then [c] else [];
    }
  }

  lemma {:induction false} SubstLeaf<E(!new), F(!new)>(
      c: Cause<E>, f: E -> Cause<F>, mode: Annotations, sequential: bool, a: Cause<F>, b: Cause<F>)
    requires !c.Binary() && !c.Annotated?
    ensures !HasReplaced(c, f, sequential, a, b)
    ensures Related(Subst(c, f, mode), sequential, a, b) <==> FailsWithRelated(c, f, sequential, a, b)
  {
    if c.Fail? {
      SubstFail(c.error, f, mode, sequential, a, b);
    } else {
      SubstOther(c, f, mode, sequential, a, b);
    }
  }

  /** What replaces two leaves is composed as they were, and each replacement as in itself. */
  lemma {:induction false} SubstKeepsComposition<E(!new), F(!new)>(
      c: Cause<E>, f: E -> Cause<F>, mode: Annotations, sequential: bool, a: Cause<F>, b: Cause<F>)
    ensures Related(Subst(c, f, mode), sequential, a, b) <==>
      HasReplaced(c, f, sequential, a, b) || FailsWithRelated(c, f, sequential, a, b)
    decreases c
  {
    if c.Binary() {
      SubstKeepsComposition(c.left, f, mode, sequential, a, b);
      SubstKeepsComposition(c.right, f, mode, sequential, a, b);
      SubstRelatedAbove(c, f, mode, sequential, a, b);
      ReplacedAbove(c, f, sequential, a, b);
      FailsAbove(c, f, sequential, a, b);
    } else if c.Annotated? {
      SubstKeepsComposition(c.cause, f, mode, sequential, a, b);
      SubstAnnotated(c, f, mode, sequential, a, b);
      ReplacedInAnnotated(c, f, sequential, a, b);
    } else {
      SubstLeaf(c, f, mode, sequential, a, b);
    }
  }

  // ----- The flattening

  /** Electing failures as defects changes neither the chains nor the flattening. */
  lemma {:induction false} ElectKeepsFlattening(c: Cause<Unknown>)
    ensures Denote(Subst(c, ToDefect, Collapsed)) == Denote(c)
    ensures Flattened(Subst(c, ToDefect, Collapsed)) == Flattened(c)
  {
    if c.Binary() {
      ElectKeepsFlattening(c.left);
      ElectKeepsFlattening(c.right);
    } else if c.Annotated? {
      ElectKeepsFlattening(c.cause);
    } else if c.Fail? {
      assert Subst(c, ToDefect, Collapsed) == Die(c.error);
    } else {
      assert Subst(c, ToDefect, Collapsed) == c;
    }
  }
}
