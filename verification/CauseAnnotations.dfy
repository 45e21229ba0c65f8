/** What the filters of causes do to the annotations above the childless nodes. */
module CauseAnnotations {
  import opened Options
  import opened Causes
  import opened CauseFilters
  import opened CauseShapes

  /** A childless node, the empty ones included, and the annotations above it from the outside in. */
  datatype Marked<E> = Marked(annotations: seq<Unknown>, end: Cause<E>)

  /** The childless nodes from left to right, where `above` annotates the cause itself. */
  ghost function Marks<E>(c: Cause<E>, above: seq<Unknown>): seq<Marked<E>> {
    match c
    case Annotated(d, a) => Marks(d, above + [a])
    case Sequential(l, r) => Marks(l, above) + Marks(r, above)
    case Parallel(l, r) => Marks(l, above) + Marks(r, above)
    case _ => [Marked(above, c)]
  }

  // ----- Pruning

  ghost function MarksOf<F>(c: Option<Cause<F>>, above: seq<Unknown>): seq<Marked<F>> {
    if c == None then [] else Marks(c.value, above)
  }

  ghost function KeptMark<E, F>(m: Marked<E>, k: Option<Cause<F>>): seq<Marked<F>> {
    if k == None then [] else [Marked(m.annotations, k.value)]
  }

  ghost function KeptMarks<E, F>(s: seq<Marked<E>>, p: Pruner<E, F>): seq<Marked<F>> {
    if s == [] then [] else KeptMark(s[0], p.On(s[0].end)) + KeptMarks(s[1..], p)
  }

  lemma {:induction false} KeptMarksAppend<E, F>(a: seq<Marked<E>>, b: seq<Marked<E>>, p: Pruner<E, F>)
    ensures KeptMarks(a + b, p) == KeptMarks(a, p) + KeptMarks(b, p)
  {
    if a == [] {
      assert a + b == b;
    } else {
      assert (a + b)[1..] == a[1..] + b;
      KeptMarksAppend(a[1..], b, p);
    }
  }

  lemma {:induction false} MarksOfBoth<F>(l: Option<Cause<F>>, r: Option<Cause<F>>, above: seq<Unknown>)
    ensures MarksOf(KeepSequential(l, r), above) == MarksOf(l, above) + MarksOf(r, above)
    ensures MarksOf(KeepParallel(l, r), above) == MarksOf(l, above) + MarksOf(r, above)
  {}

  /** What is kept, is kept in order and below the same annotations as before. */
  lemma {:induction false} PruneKeepsAnnotations<E(!new), F(!new)>(c: Cause<E>, p: Pruner<E, F>, above: seq<Unknown>)
    requires LeafByLeaf(p)
    ensures MarksOf(Prune(c, p), above) == KeptMarks(Marks(c, above), p)
    decreases c
  {
    if c.Binary() {
      PruneKeepsAnnotations(c.left, p, above);
      PruneKeepsAnnotations(c.right, p, above);
      KeptMarksAppend(Marks(c.left, above), Marks(c.right, above), p);
      MarksOfBoth(Prune(c.left, p), Prune(c.right, p), above);
    } else if c.Annotated? {
      PruneKeepsAnnotations(c.cause, p, above + [c.annotation]);
      assert Prune(c, p) == KeepAnnotated(Prune(c.cause, p), c.annotation);
    } else {
      var m := Marked(above, c);
      assert [m][1..] == [];
      assert Prune(c, p) == p.On(c);
    }
  }

  // ----- Substituting

  /** What stands where the childless node stood. */
  ghost function Substitute<E, F>(end: Cause<E>, f: E -> Cause<F>): Cause<F> {
    match end
    case Fail(e) => f(e)
    case Die(d) => Die(d)
    case Interrupt(i) => Interrupt(i)
    case _ => Empty
  }

  ghost function SubstitutedMarks<E, F>(s: seq<Marked<E>>, f: E -> Cause<F>): seq<Marked<F>> {
    if s == [] then []
    else Marks(Substitute(s[0].end, f), s[0].annotations) + SubstitutedMarks(s[1..], f)
  }

  lemma {:induction false} SubstitutedMarksAppend<E, F>(a: seq<Marked<E>>, b: seq<Marked<E>>, f: E -> Cause<F>)
    ensures SubstitutedMarks(a + b, f) == SubstitutedMarks(a, f) + SubstitutedMarks(b, f)
  {
    if a == [] {
      assert a + b == b;
    } else {
      assert (a + b)[1..] == a[1..] + b;
      SubstitutedMarksAppend(a[1..], b, f);
    }
  }

  lemma {:induction false} SubstitutedMark<E, F>(c: Cause<E>, f: E -> Cause<F>, above: seq<Unknown>, mode: Annotations)
    requires !c.Binary() && !c.Annotated?
    ensures Marks(Subst(c, f, mode), above) == SubstitutedMarks(Marks(c, above), f)
  {
    var m := Marked(above, c);
    assert Marks(c, above) == [m] && [m][1..] == [];
    assert Subst(c, f, mode) == Substitute(c, f);
  }

  /** Where annotations are retained, each replacement stands below the annotations of what it replaces. */
  lemma {:induction false} SubstRetainsAnnotations<E, F>(c: Cause<E>, f: E -> Cause<F>, above: seq<Unknown>)
    ensures Marks(Subst(c, f, Retained), above) == SubstitutedMarks(Marks(c, above), f)
    decreases c
  {
    if c.Binary() {
      SubstRetainsAnnotations(c.left, f, above);
      SubstRetainsAnnotations(c.right, f, above);
      SubstitutedMarksAppend(Marks(c.left, above), Marks(c.right, above), f);
    } else if c.Annotated? {
      SubstRetainsAnnotations(c.cause, f, above + [c.annotation]);
    } else {
      SubstitutedMark(c, f, above, Retained);
    }
  }

  /** The leaves among childless nodes. */
  ghost function Solid<E>(s: seq<Marked<E>>): seq<Marked<E>> {
    if s == [] then [] else (if s[0].end.Empty? then [] else [s[0]]) + Solid(s[1..])
  }

  lemma {:induction false} SolidAppend<E>(a: seq<Marked<E>>, b: seq<Marked<E>>)
    ensures Solid(a + b) == Solid(a) + Solid(b)
  {
    if a == [] {
      assert a + b == b;
    } else {
      assert (a + b)[1..] == a[1..] + b;
      SolidAppend(a[1..], b);
    }
  }

  /** No annotation stands directly on an empty node. */
  ghost predicate Tidy<E>(c: Cause<E>) {
    match c
    case Annotated(d, _) => !d.Empty? && Tidy(d)
    case Sequential(l, r) => Tidy(l) && Tidy(r)
    case Parallel(l, r) => Tidy(l) && Tidy(r)
    case _ => true
  }

  /** Where annotations of empty nodes are collapsed, every leaf still stands below the annotations of what
      it replaces, and no empty node keeps one. */
  lemma {:induction false} SubstCollapsesAnnotations<E(!new), F>(c: Cause<E>, f: E -> Cause<F>, above: seq<Unknown>)
    requires forall e :: Tidy(f(e))
    ensures Solid(Marks(Subst(c, f, Collapsed), above)) == Solid(SubstitutedMarks(Marks(c, above), f))
    ensures Tidy(Subst(c, f, Collapsed))
    decreases c
  {
    if c.Binary() {
      SubstCollapsesAnnotations(c.left, f, above);
      SubstCollapsesAnnotations(c.right, f, above);
      SubstitutedMarksAppend(Marks(c.left, above), Marks(c.right, above), f);
      SolidAppend(SubstitutedMarks(Marks(c.left, above), f), SubstitutedMarks(Marks(c.right, above), f));
      SolidAppend(Marks(Subst(c.left, f, Collapsed), above), Marks(Subst(c.right, f, Collapsed), above));
    } else if c.Annotated? {
      SubstCollapsesAnnotations(c.cause, f, above + [c.annotation]);
    } else {
      SubstitutedMark(c, f, above, Collapsed);
    }
  }

  /** Stripping and electing failures keep the annotations above every leaf they leave. */
  lemma {:induction false} CollapsingFilters(c: Cause<Unknown>)
    ensures Solid(Marks(Subst(c, ToEmpty, Collapsed), [])) == Solid(SubstitutedMarks(Marks(c, []), ToEmpty))
    ensures Solid(Marks(Subst(c, ToDefect, Collapsed), [])) == Solid(SubstitutedMarks(Marks(c, []), ToDefect))
    ensures Tidy(Subst(c, ToEmpty, Collapsed)) && Tidy(Subst(c, ToDefect, Collapsed))
  {
    SubstCollapsesAnnotations(c, ToEmpty, []);
    SubstCollapsesAnnotations(c, ToDefect, []);
  }
}
