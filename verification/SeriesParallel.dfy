/**
  Series-parallel trees, the common denotation of a request block and of a cause.

  A tree is given two meanings that do not mention how it is evaluated:
   - its chains, the linear orders obtained by choosing a branch at every `Par`;
   - its rounds, the multisets of items an evaluator that starts everything as early as the
     sequencing allows issues together.
  `RoundsAreChainPositions` says that the two agree; the rest of the module proves what they say
  about ordering and about how often an item is issued.
 */
module SeriesParallel {

  datatype Tree<A> =
    | Nil
    | Leaf(item: A)
    | Par(left: Tree<A>, right: Tree<A>)
    | Seq(left: Tree<A>, right: Tree<A>)

  type Layers<A> = seq<multiset<A>>

  // ----- Layers: the items issued round by round

  ghost function At<A>(ls: Layers<A>, i: nat): multiset<A> {
    if i < |ls| then ls[i] else multiset{}
  }

  ghost predicate IssuedAt<A>(ls: Layers<A>, i: nat, a: A) {
    a in At(ls, i)
  }

  ghost function Overlay<A>(a: Layers<A>, b: Layers<A>): (r: Layers<A>)
    ensures |r| == if |a| < |b| then |b| else |a|
    ensures forall i: nat :: At(r, i) == At(a, i) + At(b, i)
  {
    seq(if |a| < |b| then |b| else |a|, i requires 0 <= i => At(a, i) + At(b, i))
  }

  ghost predicate NoEmptyLayer<A>(ls: Layers<A>) {
    forall i :: 0 <= i < |ls| ==> ls[i] != multiset{}
  }

  lemma SameLayers<A>(a: Layers<A>, b: Layers<A>)
    requires |a| == |b|
    requires forall i: nat :: At(a, i) == At(b, i)
    ensures a == b
  {
    forall i | 0 <= i < |a| ensures a[i] == b[i] {
      assert At(a, i) == At(b, i);
    }
  }

  lemma OverlayNil<A>(a: Layers<A>)
    ensures Overlay(a, []) == a && Overlay([], a) == a
  {
    SameLayers(Overlay(a, []), a);
    SameLayers(Overlay([], a), a);
  }

  lemma OverlayCommutative<A>(a: Layers<A>, b: Layers<A>)
    ensures Overlay(a, b) == Overlay(b, a)
  {
    SameLayers(Overlay(a, b), Overlay(b, a));
  }

  lemma OverlayAssociative<A>(a: Layers<A>, b: Layers<A>, c: Layers<A>)
    ensures Overlay(Overlay(a, b), c) == Overlay(a, Overlay(b, c))
  {
    SameLayers(Overlay(Overlay(a, b), c), Overlay(a, Overlay(b, c)));
  }

  /** The layers still to come when `m` has been collected for the current round. */
  ghost function Pend<A>(m: multiset<A>, ls: Layers<A>): (r: Layers<A>)
    ensures forall i: nat :: At(r, i) == if i == 0 then m else At(ls, i - 1)
    ensures |r| == if m == multiset{} && ls == [] then 0 else 1 + |ls|
  {
    if m == multiset{} && ls == [] then [] else [m] + ls
  }

  /** The layers an evaluator still owes: those of its current node and of its stack, overlaid with
      the ones it has collected or deferred. */
  ghost function Owed<A>(head: Layers<A>, stack: Layers<A>, m: multiset<A>, later: Layers<A>): Layers<A> {
    Overlay(Overlay(head, stack), Pend(m, later))
  }

  lemma OwedStart<A>(head: Layers<A>)
    ensures Owed(head, [], multiset{}, []) == head
  {
    SameLayers(Owed(head, [], multiset{}, []), head);
  }

  lemma OwedFork<A>(l: Layers<A>, r: Layers<A>, stack: Layers<A>, m: multiset<A>, later: Layers<A>)
    ensures Owed(Overlay(l, r), stack, m, later) == Owed(l, Overlay(r, stack), m, later)
    ensures Owed(Overlay(l, r), stack, m, later) == Owed(l, Overlay(stack, r), m, later)
  {
    SameLayers(Owed(Overlay(l, r), stack, m, later), Owed(l, Overlay(r, stack), m, later));
    SameLayers(Owed(Overlay(l, r), stack, m, later), Owed(l, Overlay(stack, r), m, later));
  }

  /** What follows a single item may be set aside for the next round. */
  lemma OwedDefer<A>(q: multiset<A>, follow: Layers<A>, stack: Layers<A>, m: multiset<A>, later: Layers<A>)
    requires q != multiset{}
    ensures Owed(Pend(q, follow), stack, m, later) == Owed(Pend(q, []), stack, m, Overlay(follow, later))
  {
    SameLayers(Owed(Pend(q, follow), stack, m, later), Owed(Pend(q, []), stack, m, Overlay(follow, later)));
  }

  /** A finished node makes room for the top of the stack. */
  lemma OwedCollect<A>(q: multiset<A>, head: Layers<A>, stack: Layers<A>, m: multiset<A>, later: Layers<A>)
    requires q != multiset{}
    ensures Owed(Pend(q, []), Overlay(head, stack), m, later) == Owed(head, stack, m + q, later)
  {
    SameLayers(Owed(Pend(q, []), Overlay(head, stack), m, later), Owed(head, stack, m + q, later));
  }

  lemma OwedSkip<A>(head: Layers<A>, stack: Layers<A>, m: multiset<A>, later: Layers<A>)
    ensures Owed([], Overlay(head, stack), m, later) == Owed(head, stack, m, later)
  {
    SameLayers(Owed([], Overlay(head, stack), m, later), Owed(head, stack, m, later));
  }

  lemma OwedEnd<A>(q: multiset<A>, m: multiset<A>, later: Layers<A>)
    ensures Owed([], [], m, later) == Pend(m, later)
    ensures q != multiset{} ==> Owed(Pend(q, []), [], m, later) == Pend(m + q, later)
  {
    SameLayers(Owed([], [], m, later), Pend(m, later));
    if q != multiset{} { SameLayers(Owed(Pend(q, []), [], m, later), Pend(m + q, later)); }
  }

  lemma PendOverlay<A>(m: multiset<A>, ls: Layers<A>, n: multiset<A>, ks: Layers<A>)
    requires (m == multiset{} ==> ls == []) && (n == multiset{} ==> ks == [])
    ensures Overlay(Pend(m, ls), Pend(n, ks)) == Pend(m + n, Overlay(ls, ks))
  {
    SameLayers(Overlay(Pend(m, ls), Pend(n, ks)), Pend(m + n, Overlay(ls, ks)));
  }

  // ----- Rounds: what is issued when `rest` follows the tree

  ghost function Rounds<A>(t: Tree<A>, rest: Layers<A>): Layers<A> {
    match t
    case Nil => rest
    case Leaf(a) => [multiset{a}] + rest
    case Par(l, r) => Overlay(Rounds(l, rest), Rounds(r, rest))
    case Seq(l, r) => Rounds(l, Rounds(r, rest))
  }

  lemma RoundsNonEmpty<A>(t: Tree<A>, rest: Layers<A>)
    requires NoEmptyLayer(rest)
    ensures NoEmptyLayer(Rounds(t, rest))
  {
    match t
    case Nil =>
    case Leaf(_) =>
    case Par(l, r) =>
      RoundsNonEmpty(l, rest);
      RoundsNonEmpty(r, rest);
      var o := Rounds(t, rest);
      forall i | 0 <= i < |o| ensures o[i] != multiset{} {
        assert At(o, i) == At(Rounds(l, rest), i) + At(Rounds(r, rest), i);
      }
    case Seq(l, r) =>
      RoundsNonEmpty(r, rest);
      RoundsNonEmpty(l, Rounds(r, rest));
  }

  /** The rewrites of both evaluators keep the rounds. */
  lemma {:induction false} RewritesKeepRounds<A>(l: Tree<A>, m: Tree<A>, r: Tree<A>, rest: Layers<A>)
    ensures Rounds(Seq(Nil, r), rest) == Rounds(r, rest)
    ensures Rounds(Seq(Seq(l, m), r), rest) == Rounds(Seq(l, Seq(m, r)), rest)
    ensures Rounds(Seq(Par(l, m), r), rest) == Rounds(Par(Seq(l, r), Seq(m, r)), rest)
  {
    assert Rounds(Seq(Seq(l, m), r), rest) == Rounds(Seq(l, m), Rounds(r, rest));
    assert Rounds(Seq(Par(l, m), r), rest) == Rounds(Par(l, m), Rounds(r, rest));
  }

  // ----- Chains

  /** `c` chooses one side at every `Par` and keeps the order of every `Seq`. */
  ghost predicate IsChain<A(!new)>(t: Tree<A>, c: seq<A>) {
    match t
    case Nil => c == []
    case Leaf(a) => c == [a]
    case Par(l, r) => IsChain(l, c) || IsChain(r, c)
    case Seq(l, r) => exists x, y :: IsChain(l, x) && IsChain(r, y) && c == x + y
  }

  lemma Join<A(!new)>(l: Tree<A>, r: Tree<A>, x: seq<A>, y: seq<A>)
    requires IsChain(l, x) && IsChain(r, y)
    ensures IsChain(Seq(l, r), x + y)
  {}

  lemma Split<A(!new)>(l: Tree<A>, r: Tree<A>, c: seq<A>) returns (x: seq<A>, y: seq<A>)
    requires IsChain(Seq(l, r), c)
    ensures IsChain(l, x) && IsChain(r, y) && c == x + y
  {
    x, y :| IsChain(l, x) && IsChain(r, y) && c == x + y;
  }

  lemma {:induction false} SomeChain<A(!new)>(t: Tree<A>) returns (c: seq<A>)
    ensures IsChain(t, c)
  {
    match t
    case Nil => c := [];
    case Leaf(a) => c := [a];
    case Par(l, _) => c := SomeChain(l);
    case Seq(l, r) =>
      var x := SomeChain(l);
      var y := SomeChain(r);
      Join(l, r, x, y);
      c := x + y;
  }

  // The algebra of chains

  ghost predicate SameChains<A(!new)>(t: Tree<A>, u: Tree<A>) {
    forall c :: IsChain(t, c) <==> IsChain(u, c)
  }

  lemma {:induction false} SeqAssociative<A(!new)>(t: Tree<A>, u: Tree<A>, v: Tree<A>)
    ensures SameChains(Seq(Seq(t, u), v), Seq(t, Seq(u, v)))
  {
    forall c ensures IsChain(Seq(Seq(t, u), v), c) <==> IsChain(Seq(t, Seq(u, v)), c) {
      if IsChain(Seq(Seq(t, u), v), c) {
        var xy, z := Split(Seq(t, u), v, c);
        var x, y := Split(t, u, xy);
        ThreeInARow(t, u, v, x, y, z);
      }
      if IsChain(Seq(t, Seq(u, v)), c) {
        var x, yz := Split(t, Seq(u, v), c);
        var y, z := Split(u, v, yz);
        ThreeInARow(t, u, v, x, y, z);
      }
    }
  }

  lemma {:induction false} ThreeInARow<A(!new)>(
      t: Tree<A>, u: Tree<A>, v: Tree<A>, x: seq<A>, y: seq<A>, z: seq<A>)
    requires IsChain(t, x) && IsChain(u, y) && IsChain(v, z)
    ensures IsChain(Seq(t, Seq(u, v)), x + (y + z)) && IsChain(Seq(Seq(t, u), v), (x + y) + z)
    ensures x + (y + z) == (x + y) + z
  {
    Join(u, v, y, z);
    Join(t, Seq(u, v), x, y + z);
    Join(t, u, x, y);
    Join(Seq(t, u), v, x + y, z);
  }

  lemma {:induction false} SeqUnit<A(!new)>(t: Tree<A>)
    ensures SameChains(Seq(Nil, t), t) && SameChains(Seq(t, Nil), t)
  {
    forall c ensures IsChain(Seq(Nil, t), c) <==> IsChain(t, c) {
      if IsChain(t, c) { Join(Nil, t, [], c); assert [] + c == c; }
      if IsChain(Seq(Nil, t), c) { var x, y := Split(Nil, t, c); assert c == y; }
    }
    forall c ensures IsChain(Seq(t, Nil), c) <==> IsChain(t, c) {
      if IsChain(t, c) { Join(t, Nil, c, []); assert c + [] == c; }
      if IsChain(Seq(t, Nil), c) { var x, y := Split(t, Nil, c); assert c == x; }
    }
  }

  lemma {:induction false} ParLaws<A(!new)>(t: Tree<A>, u: Tree<A>, v: Tree<A>)
    ensures SameChains(Par(Par(t, u), v), Par(t, Par(u, v)))
    ensures SameChains(Par(t, u), Par(u, t)) && SameChains(Par(t, t), t)
  {}

  lemma {:induction false} DistributesRight<A(!new)>(t: Tree<A>, u: Tree<A>, v: Tree<A>)
    ensures SameChains(Seq(Par(t, u), v), Par(Seq(t, v), Seq(u, v)))
  {
    forall c ensures IsChain(Seq(Par(t, u), v), c) <==> IsChain(Seq(t, v), c) || IsChain(Seq(u, v), c) {
      if IsChain(Seq(Par(t, u), v), c) {
        var x, y := Split(Par(t, u), v, c);
        if IsChain(t, x) { Join(t, v, x, y); } else { Join(u, v, x, y); }
      }
      if IsChain(Seq(t, v), c) { var x, y := Split(t, v, c); Join(Par(t, u), v, x, y); }
      if IsChain(Seq(u, v), c) { var x, y := Split(u, v, c); Join(Par(t, u), v, x, y); }
    }
  }

  lemma {:induction false} DistributesLeft<A(!new)>(t: Tree<A>, u: Tree<A>, v: Tree<A>)
    ensures SameChains(Seq(t, Par(u, v)), Par(Seq(t, u), Seq(t, v)))
  {
    forall c ensures IsChain(Seq(t, Par(u, v)), c) <==> IsChain(Seq(t, u), c) || IsChain(Seq(t, v), c) {
      if IsChain(Seq(t, Par(u, v)), c) {
        var x, y := Split(t, Par(u, v), c);
        if IsChain(u, y) { Join(t, u, x, y); } else { Join(t, v, x, y); }
      }
      if IsChain(Seq(t, u), c) { var x, y := Split(t, u, c); Join(t, Par(u, v), x, y); }
      if IsChain(Seq(t, v), c) { var x, y := Split(t, v, c); Join(t, Par(u, v), x, y); }
    }
  }

  lemma {:induction false} SeqCongruence<A(!new)>(t: Tree<A>, u: Tree<A>, v: Tree<A>)
    requires SameChains(t, u)
    ensures SameChains(Seq(t, v), Seq(u, v)) && SameChains(Seq(v, t), Seq(v, u))
  {}

  lemma {:induction false} ParCongruence<A(!new)>(t: Tree<A>, u: Tree<A>, v: Tree<A>)
    requires SameChains(t, u)
    ensures SameChains(Par(t, v), Par(u, v)) && SameChains(Par(v, t), Par(v, u))
  {}

  // ----- Rounds and chains

  ghost predicate OnChain<A(!new)>(t: Tree<A>, i: nat, a: A) {
    exists c :: IsChain(t, c) && i < |c| && c[i] == a
  }

  ghost predicate SomeLonger<A(!new)>(t: Tree<A>, i: nat) {
    exists c :: IsChain(t, c) && i < |c|
  }

  /** Layer i holds exactly the i-th elements of the chains. */
  ghost predicate Represents<A(!new)>(ls: Layers<A>, t: Tree<A>) {
    forall i: nat, a :: IssuedAt(ls, i, a) <==> OnChain(t, i, a)
  }

  lemma {:induction false} SameRepresented<A(!new)>(ls: Layers<A>, t: Tree<A>, u: Tree<A>)
    requires SameChains(t, u) && Represents(ls, t)
    ensures Represents(ls, u)
  {
    forall i: nat, a ensures OnChain(t, i, a) <==> OnChain(u, i, a) {
      if OnChain(t, i, a) { var c :| IsChain(t, c) && i < |c| && c[i] == a; assert IsChain(u, c); }
      if OnChain(u, i, a) { var c :| IsChain(u, c) && i < |c| && c[i] == a; assert IsChain(t, c); }
    }
  }

  lemma {:induction false} LeafRepresents<A(!new)>(a: A, rest: Layers<A>, u: Tree<A>)
    requires Represents(rest, u)
    ensures Represents([multiset{a}] + rest, Seq(Leaf(a), u))
  {
    var ls := [multiset{a}] + rest;
    forall i: nat, b ensures IssuedAt(ls, i, b) <==> OnChain(Seq(Leaf(a), u), i, b) {
      if i == 0 {
        var y := SomeChain(u);
        Join(Leaf(a), u, [a], y);
        assert ([a] + y)[0] == a;
      } else {
        assert IssuedAt(ls, i, b) <==> IssuedAt(rest, i - 1, b);
        if OnChain(u, i - 1, b) {
          var y :| IsChain(u, y) && i - 1 < |y| && y[i - 1] == b;
          Join(Leaf(a), u, [a], y);
          assert ([a] + y)[i] == b;
        }
      }
      if OnChain(Seq(Leaf(a), u), i, b) {
        var c :| IsChain(Seq(Leaf(a), u), c) && i < |c| && c[i] == b;
        var x, y := Split(Leaf(a), u, c);
        assert i > 0 ==> y[i - 1] == b;
      }
    }
  }

  lemma {:induction false} OverlayRepresents<A(!new)>(a: Layers<A>, b: Layers<A>, t: Tree<A>, u: Tree<A>)
    requires Represents(a, t) && Represents(b, u)
    ensures Represents(Overlay(a, b), Par(t, u))
  {
    forall i: nat, e ensures IssuedAt(Overlay(a, b), i, e) <==> OnChain(Par(t, u), i, e) {
      assert IssuedAt(Overlay(a, b), i, e) <==> IssuedAt(a, i, e) || IssuedAt(b, i, e);
      if OnChain(t, i, e) { var c :| IsChain(t, c) && i < |c| && c[i] == e; assert IsChain(Par(t, u), c); }
      if OnChain(u, i, e) { var c :| IsChain(u, c) && i < |c| && c[i] == e; assert IsChain(Par(t, u), c); }
    }
  }

  lemma {:induction false} RoundsRepresent<A(!new)>(t: Tree<A>, rest: Layers<A>, u: Tree<A>)
    requires Represents(rest, u)
    ensures Represents(Rounds(t, rest), Seq(t, u))
  {
    match t
    case Nil =>
      SeqUnit(u);
      SameRepresented(rest, u, Seq(Nil, u));
    case Leaf(a) =>
      LeafRepresents(a, rest, u);
    case Par(l, r) =>
      RoundsRepresent(l, rest, u);
      RoundsRepresent(r, rest, u);
      OverlayRepresents(Rounds(l, rest), Rounds(r, rest), Seq(l, u), Seq(r, u));
      DistributesRight(l, r, u);
      SameRepresented(Rounds(t, rest), Par(Seq(l, u), Seq(r, u)), Seq(t, u));
    case Seq(l, r) =>
      RoundsRepresent(r, rest, u);
      RoundsRepresent(l, Rounds(r, rest), Seq(r, u));
      SeqAssociative(l, r, u);
      SameRepresented(Rounds(t, rest), Seq(l, Seq(r, u)), Seq(t, u));
  }

  lemma {:induction false} EmptyRestRepresents<A(!new)>(t: Tree<A>)
    ensures Represents(Rounds(t, []), t)
  {
    assert Represents<A>([], Nil) by {
      forall i: nat, a ensures !IssuedAt<A>([], i, a) && !OnChain(Nil, i, a) {}
    }
    RoundsRepresent(t, [], Nil);
    SeqUnit(t);
    SameRepresented(Rounds(t, []), Seq(t, Nil), t);
  }

  lemma LongestChain<A(!new)>(ls: Layers<A>, t: Tree<A>, i: nat)
    requires NoEmptyLayer(ls) && Represents(ls, t)
    ensures i < |ls| <==> SomeLonger(t, i)
  {
    if i < |ls| {
      assert ls[i] != multiset{};
      var a :| a in ls[i];
      assert IssuedAt(ls, i, a);
      assert OnChain(t, i, a);
    }
    if SomeLonger(t, i) {
      var c :| IsChain(t, c) && i < |c|;
      assert OnChain(t, i, c[i]);
      assert IssuedAt(ls, i, c[i]);
    }
  }

  /** The i-th round issues exactly the i-th elements of the chains, and there are as many rounds as
      the longest chain has elements. */
  lemma {:induction false} RoundsAreChainPositions<A(!new)>(t: Tree<A>)
    ensures Represents(Rounds(t, []), t)
    ensures forall i: nat :: i < |Rounds(t, [])| <==> SomeLonger(t, i)
  {
    EmptyRestRepresents(t);
    RoundsNonEmpty(t, []);
    forall i: nat ensures i < |Rounds(t, [])| <==> SomeLonger(t, i) {
      LongestChain(Rounds(t, []), t, i);
    }
  }

  // ----- Ordering

  ghost function Items<A>(t: Tree<A>): set<A> {
    match t
    case Nil => {}
    case Leaf(a) => {a}
    case Par(l, r) => Items(l) + Items(r)
    case Seq(l, r) => Items(l) + Items(r)
  }

  ghost predicate Distinct<A>(t: Tree<A>) {
    match t
    case Nil => true
    case Leaf(_) => true
    case Par(l, r) => Distinct(l) && Distinct(r) && Items(l) !! Items(r)
    case Seq(l, r) => Distinct(l) && Distinct(r) && Items(l) !! Items(r)
  }

  /** Some `Seq` of the tree has `a` on its left and `b` on its right. */
  ghost predicate Before<A>(t: Tree<A>, a: A, b: A) {
    match t
    case Nil => false
    case Leaf(_) => false
    case Par(l, r) => Before(l, a, b) || Before(r, a, b)
    case Seq(l, r) => Before(l, a, b) || Before(r, a, b) || (a in Items(l) && b in Items(r))
  }

  lemma BeforeItems<A>(t: Tree<A>, a: A, b: A)
    requires Before(t, a, b)
    ensures a in Items(t) && b in Items(t)
  {}

  lemma {:induction false} ChainItems<A(!new)>(t: Tree<A>, c: seq<A>)
    requires IsChain(t, c)
    ensures forall i :: 0 <= i < |c| ==> c[i] in Items(t)
  {
    match t
    case Nil =>
    case Leaf(_) =>
    case Par(l, r) => if IsChain(l, c) { ChainItems(l, c); } else { ChainItems(r, c); }
    case Seq(l, r) =>
      var x, y := Split(l, r, c);
      ChainItems(l, x);
      ChainItems(r, y);
  }

  lemma {:induction false} ItemHasChain<A(!new)>(t: Tree<A>, a: A) returns (c: seq<A>, i: nat)
    requires a in Items(t)
    ensures IsChain(t, c) && i < |c| && c[i] == a
  {
    match t
    case Leaf(_) => c, i := [a], 0;
    case Par(l, r) => if a in Items(l) { c, i := ItemHasChain(l, a); } else { c, i := ItemHasChain(r, a); }
    case Seq(l, r) =>
      if a in Items(l) {
        c, i := ItemHasChain(l, a);
        var y := SomeChain(r);
        Join(l, r, c, y);
        c := c + y;
      } else {
        c, i := ItemHasChain(r, a);
        var x := SomeChain(l);
        Join(l, r, x, c);
        c, i := x + c, |x| + i;
      }
  }

  /** The side of a `Seq` that position `i` of one of its chains comes from. */
  lemma {:induction false} Locate<A(!new)>(l: Tree<A>, r: Tree<A>, c: seq<A>, i: nat)
      returns (x: seq<A>, y: seq<A>)
    requires IsChain(Seq(l, r), c) && i < |c|
    ensures IsChain(l, x) && IsChain(r, y) && c == x + y
    ensures i < |x| ==> c[i] == x[i] && c[i] in Items(l)
    ensures |x| <= i ==> c[i] == y[i - |x|] && c[i] in Items(r)
  {
    x, y := Split(l, r, c);
    ChainItems(l, x);
    ChainItems(r, y);
  }

  lemma {:induction false} FollowedOnChains<A(!new)>(t: Tree<A>, a: A, b: A, c: seq<A>, i: nat)
      returns (d: seq<A>, j: nat)
    requires Distinct(t) && Before(t, a, b)
    requires IsChain(t, c) && i < |c| && c[i] == a
    ensures IsChain(t, d) && i < j < |d| && d[j] == b
  {
    match t
    case Par(l, r) =>
      if IsChain(l, c) {
        ChainItems(l, c);
        if Before(r, a, b) { BeforeItems(r, a, b); }
        d, j := FollowedOnChains(l, a, b, c, i);
      } else {
        ChainItems(r, c);
        if Before(l, a, b) { BeforeItems(l, a, b); }
        d, j := FollowedOnChains(r, a, b, c, i);
      }
    case Seq(l, r) =>
      var x, y := Locate(l, r, c, i);
      if Before(l, a, b) { BeforeItems(l, a, b); }
      if Before(r, a, b) { BeforeItems(r, a, b); }
      if |x| <= i {
        d, j := FollowedOnChains(r, a, b, y, i - |x|);
        Join(l, r, x, d);
        d, j := x + d, |x| + j;
      } else if Before(l, a, b) {
        d, j := FollowedOnChains(l, a, b, x, i);
        Join(l, r, d, y);
        d := d + y;
      } else {
        d, j := ItemHasChain(r, b);
        Join(l, r, x, d);
        d, j := x + d, |x| + j;
      }
  }

  /** With distinct items, every issue of an item left of a `Seq` is followed, in a strictly later
      round, by an issue of every item to the right of that `Seq`. */
  lemma {:induction false} LeftIsFollowedByRight<A(!new)>(t: Tree<A>, a: A, b: A, i: nat)
    requires Distinct(t) && Before(t, a, b)
    requires IssuedAt(Rounds(t, []), i, a)
    ensures exists j :: i < j < |Rounds(t, [])| && b in Rounds(t, [])[j]
  {
    RoundsAreChainPositions(t);
    assert OnChain(t, i, a);
    var c :| IsChain(t, c) && i < |c| && c[i] == a;
    var d, j := FollowedOnChains(t, a, b, c, i);
    assert OnChain(t, j, b);
    assert IssuedAt(Rounds(t, []), j, b);
  }

  /** All chains have the same length. */
  ghost predicate Uniform<A(!new)>(t: Tree<A>) {
    forall c, d :: IsChain(t, c) && IsChain(t, d) ==> |c| == |d|
  }

  /** Every `Seq` has a left operand whose chains are equally long, or nothing on its right. */
  ghost predicate Balanced<A(!new)>(t: Tree<A>) {
    match t
    case Nil => true
    case Leaf(_) => true
    case Par(l, r) => Balanced(l) && Balanced(r)
    case Seq(l, r) => Balanced(l) && Balanced(r) && (Uniform(l) || Items(r) == {})
  }

  /** Every issue of an item left of a `Seq` comes in an earlier round than every issue of an item to
      its right. */
  ghost predicate Ordered<A(!new)>(t: Tree<A>, ls: Layers<A>) {
    forall i: nat, j: nat, a, b ::
      Before(t, a, b) && IssuedAt(ls, i, a) && IssuedAt(ls, j, b) ==> i < j
  }

  lemma {:induction false} ParSide<A(!new)>(l: Tree<A>, r: Tree<A>, side: Tree<A>, c: seq<A>, i: nat)
    requires Items(l) !! Items(r) && (side == l || side == r)
    requires IsChain(Par(l, r), c) && i < |c| && c[i] in Items(side)
    ensures IsChain(side, c)
  {
    if IsChain(l, c) { ChainItems(l, c); } else { ChainItems(r, c); }
  }

  lemma {:induction false} BalancedChains<A(!new)>(
      t: Tree<A>, a: A, b: A, c: seq<A>, i: nat, d: seq<A>, j: nat)
    requires Distinct(t) && Balanced(t) && Before(t, a, b)
    requires IsChain(t, c) && i < |c| && c[i] == a
    requires IsChain(t, d) && j < |d| && d[j] == b
    ensures i < j
    decreases t
  {
    match t
    case Par(l, r) =>
      var side := if Before(l, a, b) then l else r;
      BeforeItems(side, a, b);
      ParSide(l, r, side, c, i);
      ParSide(l, r, side, d, j);
      BalancedChains(side, a, b, c, i, d, j);
    case Seq(l, r) =>
      BalancedSeq(l, r, a, b, c, i, d, j);
  }

  lemma {:induction false} BalancedSeq<A(!new)>(
      l: Tree<A>, r: Tree<A>, a: A, b: A, c: seq<A>, i: nat, d: seq<A>, j: nat)
    requires Distinct(Seq(l, r)) && Balanced(Seq(l, r)) && Before(Seq(l, r), a, b)
    requires IsChain(Seq(l, r), c) && i < |c| && c[i] == a
    requires IsChain(Seq(l, r), d) && j < |d| && d[j] == b
    ensures i < j
    decreases Seq(l, r), 1
  {
    var x, y := Locate(l, r, c, i);
    var z, w := Locate(l, r, d, j);
    BalancedParts(l, r, a, b, x, y, i, z, w, j);
  }

  /** Where position `i` of `x + y` is, and what it holds. */
  ghost predicate Holds<A(!new)>(l: Tree<A>, r: Tree<A>, x: seq<A>, y: seq<A>, i: nat, a: A) {
    if i < |x| then x[i] == a && a in Items(l) else i - |x| < |y| && y[i - |x|] == a && a in Items(r)
  }

  lemma {:induction false} SameLengths<A(!new)>(l: Tree<A>, r: Tree<A>, b: A, x: seq<A>, z: seq<A>)
    requires Balanced(Seq(l, r)) && b in Items(r) && IsChain(l, x) && IsChain(l, z)
    ensures |x| == |z|
  {}

  lemma {:induction false} BalancedParts<A(!new)>(
      l: Tree<A>, r: Tree<A>, a: A, b: A, x: seq<A>, y: seq<A>, i: nat, z: seq<A>, w: seq<A>, j: nat)
    requires Distinct(Seq(l, r)) && Balanced(Seq(l, r)) && Before(Seq(l, r), a, b)
    requires IsChain(l, x) && IsChain(r, y) && Holds(l, r, x, y, i, a)
    requires IsChain(l, z) && IsChain(r, w) && Holds(l, r, z, w, j, b)
    ensures i < j
    decreases Seq(l, r), 0
  {
    if Before(l, a, b) {
      BeforeItems(l, a, b);
      BalancedChains(l, a, b, x, i, z, j);
    } else {
      if Before(r, a, b) { BeforeItems(r, a, b); }
      SameLengths(l, r, b, x, z);
      if Before(r, a, b) {
        BalancedChains(r, a, b, y, i - |x|, w, j - |z|);
      }
    }
  }

  /** Two positions that violate the order. */
  datatype Clash<A> = Clash(a: A, b: A, c: seq<A>, i: nat, d: seq<A>, j: nat)

  ghost predicate OutOfOrder<A(!new)>(t: Tree<A>, v: Clash<A>) {
    && IsChain(t, v.c) && v.i < |v.c| && v.c[v.i] == v.a
    && IsChain(t, v.d) && v.j < |v.d| && v.d[v.j] == v.b
    && v.j <= v.i
  }

  lemma {:induction false} UnbalancedChains<A(!new)>(t: Tree<A>) returns (v: Clash<A>)
    requires !Balanced(t)
    ensures Before(t, v.a, v.b) && OutOfOrder(t, v)
  {
    match t
    case Par(l, r) =>
      v := UnbalancedChains(if !Balanced(l) then l else r);
    case Seq(l, r) =>
      if !Balanced(l) {
        v := UnbalancedChains(l);
        v := ClashThenRight(l, r, v);
      } else if !Balanced(r) {
        v := UnbalancedChains(r);
        v := LeftThenClash(l, r, v);
      } else {
        v := UnevenSeq(l, r);
      }
  }

  lemma {:induction false} ClashThenRight<A(!new)>(l: Tree<A>, r: Tree<A>, v: Clash<A>) returns (w: Clash<A>)
    requires OutOfOrder(l, v)
    ensures w.a == v.a && w.b == v.b && OutOfOrder(Seq(l, r), w)
  {
    var y := SomeChain(r);
    Join(l, r, v.c, y);
    Join(l, r, v.d, y);
    w := v.(c := v.c + y, d := v.d + y);
  }

  lemma {:induction false} LeftThenClash<A(!new)>(l: Tree<A>, r: Tree<A>, v: Clash<A>) returns (w: Clash<A>)
    requires OutOfOrder(r, v)
    ensures w.a == v.a && w.b == v.b && OutOfOrder(Seq(l, r), w)
  {
    var x := SomeChain(l);
    Join(l, r, x, v.c);
    Join(l, r, x, v.d);
    w := Clash(v.a, v.b, x + v.c, |x| + v.i, x + v.d, |x| + v.j);
  }

  lemma {:induction false} UnevenSeq<A(!new)>(l: Tree<A>, r: Tree<A>) returns (v: Clash<A>)
    requires !Uniform(l) && Items(r) != {}
    ensures v.a in Items(l) && v.b in Items(r) && OutOfOrder(Seq(l, r), v)
  {
    var x, z :| IsChain(l, x) && IsChain(l, z) && |z| < |x|;
    var e :| e in Items(r);
    var y, k := ItemHasChain(r, e);
    ChainItems(l, x);
    ChainItems(r, y);
    Join(l, r, x, y);
    Join(l, r, z, y);
    v := Clash(x[|x| - 1], y[0], x + y, |x| - 1, z + y, |z|);
  }

  /** "Everything left of a `Seq` has been issued before anything to its right" holds of a tree with
      distinct items exactly when the tree is balanced. */
  lemma {:induction false} OrderedIff<A(!new)>(t: Tree<A>)
    requires Distinct(t)
    ensures Ordered(t, Rounds(t, [])) <==> Balanced(t)
  {
    RoundsAreChainPositions(t);
    if Balanced(t) {
      forall i: nat, j: nat, a, b |
        Before(t, a, b) && IssuedAt(Rounds(t, []), i, a) && IssuedAt(Rounds(t, []), j, b)
        ensures i < j
      {
        assert OnChain(t, i, a) && OnChain(t, j, b);
        var c :| IsChain(t, c) && i < |c| && c[i] == a;
        var d :| IsChain(t, d) && j < |d| && d[j] == b;
        BalancedChains(t, a, b, c, i, d, j);
      }
    } else {
      var v := UnbalancedChains(t);
      assert OnChain(t, v.i, v.a) && OnChain(t, v.j, v.b);
    }
  }

  // ----- Multiplicity

  /** How many chains, counting repetitions. */
  ghost function ChainCount<A>(t: Tree<A>): (n: nat)
    ensures n >= 1
  {
    match t
    case Nil => 1
    case Leaf(_) => 1
    case Par(l, r) => ChainCount(l) + ChainCount(r)
    case Seq(l, r) => ProductPositive(ChainCount(l), ChainCount(r)); ChainCount(l) * ChainCount(r)
  }

  lemma ProductPositive(a: nat, b: nat)
    requires a >= 1 && b >= 1
    ensures a * b >= a && a * b >= b
  {}

  /** Each occurrence counts once for every chain of each left operand that precedes it. */
  ghost function Issues<A>(t: Tree<A>, a: A): nat {
    match t
    case Nil => 0
    case Leaf(b) => if a == b then 1 else 0
    case Par(l, r) => Issues(l, a) + Issues(r, a)
    case Seq(l, r) => Issues(l, a) + ChainCount(l) * Issues(r, a)
  }

  ghost function Occurrences<A>(t: Tree<A>, a: A): nat {
    match t
    case Nil => 0
    case Leaf(b) => if a == b then 1 else 0
    case Par(l, r) => Occurrences(l, a) + Occurrences(r, a)
    case Seq(l, r) => Occurrences(l, a) + Occurrences(r, a)
  }

  ghost function Total<A>(ls: Layers<A>, a: A): nat {
    if ls == [] then 0 else ls[0][a] + Total(ls[1..], a)
  }

  ghost function Later<A>(ls: Layers<A>): Layers<A> {
    if ls == [] then ls else ls[1..]
  }

  lemma {:induction false} OverlayLater<A>(x: Layers<A>, y: Layers<A>)
    ensures Later(Overlay(x, y)) == Overlay(Later(x), Later(y))
  {
    var o := Overlay(x, y);
    forall i | 0 <= i < |Later(o)| ensures Later(o)[i] == Overlay(Later(x), Later(y))[i] {
      assert At(o, i + 1) == At(x, i + 1) + At(y, i + 1);
    }
  }

  lemma {:induction false} TotalFirst<A>(ls: Layers<A>, a: A)
    ensures Total(ls, a) == At(ls, 0)[a] + Total(Later(ls), a)
  {}

  lemma {:induction false} TotalOverlay<A>(x: Layers<A>, y: Layers<A>, a: A)
    ensures Total(Overlay(x, y), a) == Total(x, a) + Total(y, a)
    decreases |x| + |y|
  {
    if x != [] || y != [] {
      var o := Overlay(x, y);
      TotalFirst(x, a);
      TotalFirst(y, a);
      TotalFirst(o, a);
      OverlayLater(x, y);
      TotalOverlay(Later(x), Later(y), a);
      assert At(o, 0) == At(x, 0) + At(y, 0);
    }
  }

  /** The issues of an item in a tree whose rounds are followed by `z` issues for each of its chains. */
  ghost function TotalThen<A>(t: Tree<A>, a: A, z: nat): nat {
    Issues(t, a) + ChainCount(t) * z
  }

  lemma {:induction false} TotalThenPar<A>(l: Tree<A>, r: Tree<A>, a: A, z: nat)
    ensures TotalThen(Par(l, r), a, z) == TotalThen(l, a, z) + TotalThen(r, a, z)
  {
    Distribute(ChainCount(l), ChainCount(r), z);
  }

  lemma {:induction false} TotalThenSeq<A>(l: Tree<A>, r: Tree<A>, a: A, z: nat)
    ensures TotalThen(Seq(l, r), a, z) == TotalThen(l, a, TotalThen(r, a, z))
  {
    Unnest(ChainCount(l), Issues(r, a), ChainCount(r), z);
  }

  lemma {:induction false} TotalRounds<A>(t: Tree<A>, rest: Layers<A>, a: A)
    ensures Total(Rounds(t, rest), a) == TotalThen(t, a, Total(rest, a))
  {
    match t
    case Nil =>
    case Leaf(b) =>
      assert ([multiset{b}] + rest)[1..] == rest;
    case Par(l, r) =>
      TotalRounds(l, rest, a);
      TotalRounds(r, rest, a);
      TotalOverlay(Rounds(l, rest), Rounds(r, rest), a);
      TotalThenPar(l, r, a, Total(rest, a));
    case Seq(l, r) =>
      TotalRounds(r, rest, a);
      TotalRounds(l, Rounds(r, rest), a);
      TotalThenSeq(l, r, a, Total(rest, a));
  }

  lemma Unnest(p: nat, i: nat, q: nat, z: nat)
    ensures p * (i + q * z) == p * i + (p * q) * z
  {
    Distribute2(p, i, q * z);
    Associate(p, q, z);
  }

  lemma Distribute(p: nat, q: nat, z: nat)
    ensures (p + q) * z == p * z + q * z
  {}

  lemma Distribute2(p: nat, q: nat, z: nat)
    ensures p * (q + z) == p * q + p * z
  {}

  lemma Associate(p: nat, q: nat, z: nat)
    ensures p * (q * z) == (p * q) * z
  {}

  /** An item is issued, over all rounds together, exactly `Issues` times. */
  lemma {:induction false} ExactMultiplicity<A>(t: Tree<A>, a: A)
    ensures Total(Rounds(t, []), a) == Issues(t, a)
  {
    var none: Layers<A> := [];
    assert Total(none, a) == 0;
    TotalRounds(t, none, a);
    assert ChainCount(t) * 0 == 0;
  }

  // ----- The measure that makes the evaluators terminate although one rewrite copies

  /** With weights 1 + a + b for `Par` and a * (2 + b) for `Seq`, distributing loses weight. */
  lemma DistributeLosesWeight(a: nat, b: nat, c: nat)
    ensures 1 + a * (2 + c) + b * (2 + c) < (1 + a + b) * (2 + c)
  {
    Distribute(1 + a, b, 2 + c);
    Distribute(1, a, 2 + c);
  }

  lemma ReassociateLosesWeight(a: nat, b: nat, c: nat)
    requires a >= 1
    ensures a * (2 + b * (2 + c)) < (a * (2 + b)) * (2 + c)
  {
    Associate(a, 2 + b, 2 + c);
    Distribute(2, b, 2 + c);
    Distribute2(a, 2 + b * (2 + c), 2 + 2 * c);
    ProductPositive(a, 2 + 2 * c);
  }

  ghost predicate HasPar<A>(t: Tree<A>) {
    match t
    case Nil => false
    case Leaf(_) => false
    case Par(_, _) => true
    case Seq(l, r) => HasPar(l) || HasPar(r)
  }

  /** No `Seq` whose left operand branches has an item in its right operand. */
  ghost predicate CopyFree<A>(t: Tree<A>) {
    match t
    case Nil => true
    case Leaf(_) => true
    case Par(l, r) => CopyFree(l) && CopyFree(r)
    case Seq(l, r) => CopyFree(l) && CopyFree(r) && (HasPar(l) ==> Items(r) == {})
  }

  lemma {:induction false} OneChainIff<A>(t: Tree<A>)
    ensures ChainCount(t) == 1 <==> !HasPar(t)
  {
    match t
    case Nil =>
    case Leaf(_) =>
    case Par(_, _) =>
    case Seq(l, r) =>
      OneChainIff(l);
      OneChainIff(r);
      ProductPositive(ChainCount(l), ChainCount(r));
  }

  lemma {:induction false} OccurrencesIff<A>(t: Tree<A>, a: A)
    ensures Occurrences(t, a) > 0 <==> a in Items(t)
    ensures Occurrences(t, a) <= Issues(t, a)
  {
    match t
    case Nil =>
    case Leaf(_) =>
    case Par(l, r) => OccurrencesIff(l, a); OccurrencesIff(r, a);
    case Seq(l, r) =>
      OccurrencesIff(l, a);
      OccurrencesIff(r, a);
      if Issues(r, a) >= 1 { ProductPositive(ChainCount(l), Issues(r, a)); }
  }

  ghost predicate IssuedOnce<A(!new)>(t: Tree<A>) {
    forall a :: Issues(t, a) == Occurrences(t, a)
  }

  /** Every occurrence is issued exactly once iff no right operand with items is copied. */
  lemma {:induction false} IssuedOnceIff<A(!new)>(t: Tree<A>)
    ensures IssuedOnce(t) <==> CopyFree(t)
  {
    match t
    case Nil =>
    case Leaf(_) =>
    case Par(l, r) =>
      IssuedOnceIff(l);
      IssuedOnceIff(r);
      forall a ensures Issues(t, a) == Occurrences(t, a) <==>
          Issues(l, a) == Occurrences(l, a) && Issues(r, a) == Occurrences(r, a) {
        OccurrencesIff(l, a);
        OccurrencesIff(r, a);
      }
    case Seq(l, r) =>
      IssuedOnceIff(l);
      IssuedOnceIff(r);
      OneChainIff(l);
      forall a ensures Issues(t, a) == Occurrences(t, a) <==>
        && Issues(l, a) == Occurrences(l, a)
        && Issues(r, a) == Occurrences(r, a)
        && (HasPar(l) ==> a !in Items(r)) {
        SeqIssuedOnce(l, r, a);
      }
      if IssuedOnce(t) && HasPar(l) {
        forall a ensures a !in Items(r) { assert Issues(t, a) == Occurrences(t, a); }
      }
  }

  lemma {:induction false} SeqIssuedOnce<A(!new)>(l: Tree<A>, r: Tree<A>, a: A)
    ensures Issues(Seq(l, r), a) == Occurrences(Seq(l, r), a) <==>
      && Issues(l, a) == Occurrences(l, a)
      && Issues(r, a) == Occurrences(r, a)
      && (HasPar(l) ==> a !in Items(r))
  {
    OccurrencesIff(l, a);
    OccurrencesIff(r, a);
    OneChainIff(l);
    var n, k := ChainCount(l), Issues(r, a);
    if k >= 1 {
      ProductPositive(n, k);
      if n > 1 { ProductStrict(n, k); }
    }
  }

  lemma ProductStrict(a: nat, b: nat)
    requires a > 1 && b >= 1
    ensures a * b > b
  {}

  lemma {:induction false} UnbranchedIsUniform<A(!new)>(t: Tree<A>)
    requires !HasPar(t)
    ensures Uniform(t)
  {
    if t.Seq? {
      UnbranchedIsUniform(t.left);
      UnbranchedIsUniform(t.right);
      forall c, d | IsChain(t, c) && IsChain(t, d) ensures |c| == |d| {
        var x, y := Split(t.left, t.right, c);
        var z, w := Split(t.left, t.right, d);
      }
    }
  }

  lemma {:induction false} CopyFreeIsBalanced<A(!new)>(t: Tree<A>)
    requires CopyFree(t)
    ensures Balanced(t)
  {
    match t
    case Nil =>
    case Leaf(_) =>
    case Par(l, r) => CopyFreeIsBalanced(l); CopyFreeIsBalanced(r);
    case Seq(l, r) =>
      CopyFreeIsBalanced(l);
      CopyFreeIsBalanced(r);
      if !HasPar(l) { UnbranchedIsUniform(l); }
  }

  /** Without copying, an item that occurs once is issued once, and everything left of a `Seq` has
      been issued before anything to its right. */
  lemma {:induction false} CopyFreePlan<A(!new)>(t: Tree<A>)
    requires CopyFree(t) && Distinct(t)
    ensures forall a :: a in Items(t) ==> Total(Rounds(t, []), a) == 1
    ensures Ordered(t, Rounds(t, []))
  {
    CopyFreeIsBalanced(t);
    OrderedIff(t);
    IssuedOnceIff(t);
    forall a | a in Items(t) ensures Total(Rounds(t, []), a) == 1 {
      ExactMultiplicity(t, a);
      DistinctOccurrences(t, a);
      assert Issues(t, a) == Occurrences(t, a);
    }
  }

  lemma {:induction false} DistinctOccurrences<A>(t: Tree<A>, a: A)
    requires Distinct(t)
    ensures Occurrences(t, a) == if a in Items(t) then 1 else 0
  {
    match t
    case Nil =>
    case Leaf(_) =>
    case Par(l, r) => DistinctOccurrences(l, a); DistinctOccurrences(r, a);
    case Seq(l, r) => DistinctOccurrences(l, a); DistinctOccurrences(r, a);
  }

  // ----- Two items on the left, one on the right

  /** The item on the right is issued once for each side of a branching left operand. */
  lemma {:induction false} BranchingIssuesTwice<A(!new)>(a: A, b: A, c: A)
    requires c != a && c != b
    ensures Total(Rounds(Seq(Par(Leaf(a), Leaf(b)), Leaf(c)), []), c) == 2
  {
    ExactMultiplicity(Seq(Par(Leaf(a), Leaf(b)), Leaf(c)), c);
    var l := Par(Leaf(a), Leaf(b));
    assert Issues(Leaf(a), c) == 0 && Issues(Leaf(b), c) == 0 && Issues(Leaf(c), c) == 1;
    assert ChainCount(Leaf(a)) == 1 && ChainCount(Leaf(b)) == 1;
    assert Issues(l, c) == 0 && ChainCount(l) == 2;
  }

  /** The item on the right is issued before the longer side of the left operand is done. */
  lemma {:induction false} UnevenIsUnordered<A(!new)>(a: A, b: A, c: A, d: A)
    requires Distinct(Seq(Par(Leaf(a), Seq(Leaf(b), Leaf(c))), Leaf(d)))
    ensures var t := Seq(Par(Leaf(a), Seq(Leaf(b), Leaf(c))), Leaf(d)); !Ordered(t, Rounds(t, []))
  {
    var l := Par(Leaf(a), Seq(Leaf(b), Leaf(c)));
    OrderedIff(Seq(l, Leaf(d)));
    Join(Leaf(b), Leaf(c), [b], [c]);
    assert IsChain(l, [a]) && IsChain(l, [b] + [c]);
    assert d in Items(Leaf(d));
  }
}
