/**
  How effects dispatch on a cause when they fail, and how exits are combined.
 */
module Core {
  import opened Options
  import opened Causes
  import opened CauseFilters

  type Failing = Cause<Unknown>

  // ----- Dispatch

  /** What a failure handler continues with. `FailNever` is a cause that the source casts to
      `Cause<never>`, `FailAgain` the original cause with its error type. */
  datatype Next<+A> =
    | FailNever(cause: Failing)
    | FailAgain(cause: Failing)
    | FailWith(error: Unknown)
    | Handle(error: Unknown)
    | Recover(effect: A)
    | That

  /** The cast to `Cause<never>` is sound: no failure is left in the cause. */
  ghost predicate SoundCast<A>(next: Next<A>) {
    next.FailNever? ==> FailsIn(Leaves(next.cause)) == []
  }

  datatype Either = Left(error: Unknown) | Right(cause: Failing)

  method FailureOrCause(self: Failing) returns (r: Either)
    ensures r.Left? ==> FailsIn(Leaves(self)) != [] && r.error == FailsIn(Leaves(self))[0]
    ensures r.Right? ==> FailsIn(Leaves(self)) == [] && r.cause == self
  {
    var option := FailureOption(self);
    match option
    case None => return Right(self);
    case Some(e) => return Left(e);
  }

  /** A handler only runs when there is no defect; otherwise every failure and defect is raised as a
      defect, in order, together with the interruptions. */
  method MatchEffect(cause: Failing) returns (next: Next<()>)
    ensures SoundCast(next)
    ensures DefectsIn(Leaves(cause)) == [] && FailsIn(Leaves(cause)) != [] ==>
      next == Handle(FailsIn(Leaves(cause))[0])
    ensures DefectsIn(Leaves(cause)) != [] || FailsIn(Leaves(cause)) == [] ==>
      (next.FailNever? && DefectsIn(Leaves(next.cause)) == ElectedIn(Leaves(cause)) &&
       InterruptorsIn(Leaves(next.cause)) == InterruptorsIn(Leaves(cause)))
  {
    var failures := Failures(cause);
    var defects := Defects(cause);
    if |defects| > 0 {
      var elected := ElectFailures(cause);
      return FailNever(elected);
    }
    if |failures| > 0 {
      return Handle(failures[0]);
    }
    NothingElected(Leaves(cause));
    return FailNever(cause);
  }

  lemma {:induction false} NothingElected(s: seq<Failing>)
    ensures ElectedIn(s) == [] <==> FailsIn(s) == [] && DefectsIn(s) == []
  {
    if s == [] {
    } else {
      NothingElected(s[1..]);
    }
  }

  /** `getOrThrow` cannot throw: there is a defect, so the filter keeps something. */
  method AttemptOrElse(cause: Failing) returns (next: Next<()>)
    ensures SoundCast(next)
    ensures next == That <==> DefectsIn(Leaves(cause)) == []
    ensures DefectsIn(Leaves(cause)) != [] ==>
      (next.FailNever? && DefectsIn(Leaves(next.cause)) == ElectedIn(Leaves(cause)) &&
       InterruptorsIn(Leaves(next.cause)) == [])
  {
    var defects := Defects(cause);
    if |defects| > 0 {
      NothingElected(Leaves(cause));
      var kept := KeepDefectsAndElectFailures(cause);
      return FailNever(kept.value);
    }
    return That;
  }

  /** Offers the first failure to `pf`; a declined failure raises the unchanged cause. */
  method CatchSome<A>(cause: Failing, pf: Unknown -> Option<A>) returns (next: Next<A>)
    ensures SoundCast(next)
    ensures FailsIn(Leaves(cause)) == [] ==> next == FailNever(cause)
    ensures FailsIn(Leaves(cause)) != [] ==>
      next == (match pf(FailsIn(Leaves(cause))[0]) case None => FailAgain(cause) case Some(v) => Recover(v))
  {
    var either := FailureOrCause(cause);
    match either
    case Left(e) =>
      match pf(e) {
        case None => return FailAgain(cause);
        case Some(v) => return Recover(v);
      }
    case Right(c) => return FailNever(c);
  }

  /** Replaces a cause that contains a failure by the image of its first failure. */
  method MapError(cause: Failing, f: Unknown -> Unknown) returns (next: Next<()>)
    ensures SoundCast(next)
    ensures next ==
      if FailsIn(Leaves(cause)) == [] then FailNever(cause) else FailWith(f(FailsIn(Leaves(cause))[0]))
  {
    var either := FailureOrCause(cause);
    match either
    case Left(e) => return FailWith(f(e));
    case Right(c) => return FailNever(c);
  }

  // ----- Exits

  datatype Exit<E, A> = Success(value: A) | Failure(cause: Cause<E>)

  function ExitMap<E, A, B>(self: Exit<E, A>, f: A -> B): Exit<E, B> {
    match self
    case Success(a) => Success(f(a))
    case Failure(c) => Failure(c)
  }

  function ExitZipWith<E, A, B, C>(self: Exit<E, A>, that: Exit<E, B>, onSuccess: (A, B) -> C,
                                   onFailure: (Cause<E>, Cause<E>) -> Cause<E>): Exit<E, C>
  {
    match (self, that)
    case (Failure(c), Success(_)) => Failure(c)
    case (Failure(c), Failure(d)) => Failure(onFailure(c, d))
    case (Success(a), Success(b)) => Success(onSuccess(a, b))
    case (Success(_), Failure(d)) => Failure(d)
  }

  function Prepend<A>(list: seq<A>, value: A): seq<A> { [value] + list }

  function One<A>(value: A): seq<A> { [value] }

  function Reversed<A>(list: seq<A>): seq<A> { Reverse(list) }

  /** The reduction of `exitCollectAllInternal`, which collects the values newest first. */
  function CollectFrom<E, A>(acc: Exit<E, seq<A>>, exits: seq<Exit<E, A>>,
                             combine: (Cause<E>, Cause<E>) -> Cause<E>): Exit<E, seq<A>>
    decreases exits
  {
    if exits == [] then acc
    else CollectFrom(ExitZipWith(acc, exits[0], Prepend, combine), exits[1..], combine)
  }

  function ExitCollectAll<E, A>(exits: seq<Exit<E, A>>, combine: (Cause<E>, Cause<E>) -> Cause<E>)
    : Option<Exit<E, seq<A>>>
  {
    if exits == [] then None
    else
      var first := ExitMap(exits[0], One);
      Some(ExitMap(CollectFrom(first, exits[1..], combine), Reversed))
  }

  ghost function ValuesOf<E, A>(exits: seq<Exit<E, A>>): seq<A> {
    if exits == [] then [] else (if exits[0].Success? then [exits[0].value] else []) + ValuesOf(exits[1..])
  }

  ghost function CausesOf<E, A>(exits: seq<Exit<E, A>>): seq<Cause<E>> {
    if exits == [] then [] else (if exits[0].Failure? then [exits[0].cause] else []) + CausesOf(exits[1..])
  }

  ghost function CombineAll<E>(c: Cause<E>, cs: seq<Cause<E>>, combine: (Cause<E>, Cause<E>) -> Cause<E>): Cause<E>
    decreases cs
  {
    if cs == [] then c else CombineAll(combine(c, cs[0]), cs[1..], combine)
  }

  lemma {:induction false} CombineCons<E>(c: Cause<E>, d: Cause<E>, cs: seq<Cause<E>>,
                                          combine: (Cause<E>, Cause<E>) -> Cause<E>)
    ensures CombineAll(c, [d] + cs, combine) == CombineAll(combine(c, d), cs, combine)
    ensures ([d] + cs)[0] == d && ([d] + cs)[1..] == cs
  {}

  lemma {:induction false} CollectedValues<E, A>(acc: Exit<E, seq<A>>, exits: seq<Exit<E, A>>,
                                                 combine: (Cause<E>, Cause<E>) -> Cause<E>)
    ensures var r := CollectFrom(acc, exits, combine);
      match acc
      case Failure(c) => r == Failure(CombineAll(c, CausesOf(exits), combine))
      case Success(list) =>
        if CausesOf(exits) == [] then r.Success? && Reverse(r.value) == Reverse(list) + ValuesOf(exits)
        else r == Failure(CombineAll(CausesOf(exits)[0], CausesOf(exits)[1..], combine))
    decreases exits
  {
    if exits == [] {
    } else {
      var next := ExitZipWith(acc, exits[0], Prepend, combine);
      CollectedValues(next, exits[1..], combine);
      if exits[0].Failure? {
        var c := exits[0].cause;
        assert CausesOf(exits) == [c] + CausesOf(exits[1..]);
        CombineCons(if acc.Failure? then acc.cause else c, c, CausesOf(exits[1..]), combine);
      } else {
        assert CausesOf(exits) == CausesOf(exits[1..]);
        if acc.Success? { assert Prepend(acc.value, exits[0].value)[1..] == acc.value; }
      }
    }
  }

  /** All values in order when everything succeeded; otherwise the failing causes combined in order. */
  lemma {:induction false} CollectAllResult<E, A>(exits: seq<Exit<E, A>>, combine: (Cause<E>, Cause<E>) -> Cause<E>)
    ensures ExitCollectAll(exits, combine) ==
      if exits == [] then None
      else if CausesOf(exits) == [] then Some(Success(ValuesOf(exits)))
      else Some(Failure(CombineAll(CausesOf(exits)[0], CausesOf(exits)[1..], combine)))
  {
    if exits != [] {
      var first := ExitMap(exits[0], One);
      CollectedValues(first, exits[1..], combine);
      if exits[0].Failure? {
        assert CausesOf(exits) == [exits[0].cause] + CausesOf(exits[1..]);
      } else {
        assert CausesOf(exits) == CausesOf(exits[1..]);
        assert first.value[1..] == [];
        assert Reverse(first.value) == [exits[0].value];
      }
    }
  }

  ghost function LeavesOf<E>(cs: seq<Cause<E>>): seq<Cause<E>> {
    if cs == [] then [] else Leaves(cs[0]) + LeavesOf(cs[1..])
  }

  /** How `exitCollectAll` combines causes. */
  function Combine<E>(parallel: bool, c: Cause<E>, d: Cause<E>): Cause<E> {
    if parallel then Parallel(c, d) else Sequential(c, d)
  }

  function Combiner<E>(parallel: bool): (Cause<E>, Cause<E>) -> Cause<E> {
    (c, d) => Combine(parallel, c, d)
  }

  lemma {:induction false} CombinedLeaves<E>(c: Cause<E>, cs: seq<Cause<E>>, parallel: bool)
    ensures Leaves(CombineAll(c, cs, Combiner(parallel))) == Leaves(c) + LeavesOf(cs)
    decreases cs
  {
    if cs == [] {
    } else {
      var d := Combine(parallel, c, cs[0]);
      CombinedLeaves(d, cs[1..], parallel);
      assert Combiner<E>(parallel)(c, cs[0]) == d;
      assert Leaves(d) == Leaves(c) + Leaves(cs[0]);
    }
  }

  /** Collecting exits loses no leaf of any failing exit, and keeps their order. */
  lemma {:induction false} CollectAllLosesNothing<E, A>(exits: seq<Exit<E, A>>, parallel: bool)
    requires CausesOf(exits) != []
    ensures var r := ExitCollectAll(exits, Combiner(parallel));
      r.Some? && r.value.Failure? && Leaves(r.value.cause) == LeavesOf(CausesOf(exits))
  {
    CollectAllResult(exits, Combiner(parallel));
    CombinedLeaves(CausesOf(exits)[0], CausesOf(exits)[1..], parallel);
  }
}
