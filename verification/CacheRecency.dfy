/** The recency list over runs: the records accessed so far in the order of their last accesses, but for the
    oldest ones, which are gone. */
module CacheRecency {
  import opened Options
  import opened Core
  import opened Recency
  import opened CacheProtocol
  import opened CacheRuns
  import CacheSize

  // ----- The order of last accesses

  /** The elements in the order in which they occur last. */
  ghost function LastOccurrences<T>(xs: seq<T>): seq<T> {
    if xs == [] then [] else (if xs[0] in xs[1..] then [] else [xs[0]]) + LastOccurrences(xs[1..])
  }

  ghost function Minus<T>(s: seq<T>, xs: seq<T>): seq<T> {
    if s == [] then [] else (if s[0] in xs then [] else [s[0]]) + Minus(s[1..], xs)
  }

  lemma {:induction false} MinusAppend<T>(a: seq<T>, b: seq<T>, xs: seq<T>)
    ensures Minus(a + b, xs) == Minus(a, xs) + Minus(b, xs)
  {
    if a == [] {
      assert a + b == b;
    } else {
      assert (a + b)[1..] == a[1..] + b;
      MinusAppend(a[1..], b, xs);
    }
  }

  lemma {:induction false} MinusWithout<T>(s: seq<T>, xs: seq<T>)
    requires xs != []
    ensures Minus(Without(s, xs[0]), xs[1..]) == Minus(s, xs)
  {
    if s == [] {
    } else {
      var a := Without(s[1..], xs[0]);
      MinusWithout(s[1..], xs);
      assert xs == [xs[0]] + xs[1..];
      if s[0] != xs[0] { assert ([s[0]] + a)[1..] == a; }
    }
  }

  lemma {:induction false} MinusNothing<T>(s: seq<T>)
    ensures Minus(s, []) == s
  {
    if s == [] {
    } else {
      MinusNothing(s[1..]);
    }
  }

  lemma MinusOne<T>(x: T, xs: seq<T>)
    ensures Minus([x], xs) == if x in xs then [] else [x]
  {
    assert [x][1..] == [];
  }

  /** Touching one element after the other leaves the untouched ones in front and the touched ones in the
      order in which they were touched last. */
  lemma {:induction false} TouchedLast<T>(s: seq<T>, xs: seq<T>)
    ensures TouchAll(s, xs) == Minus(s, xs) + LastOccurrences(xs)
    decreases xs
  {
    if xs == [] {
      MinusNothing(s);
    } else {
      var x, rest := xs[0], xs[1..];
      var kept := Minus(Without(s, x), rest);
      TouchedLast(Touch(s, x), rest);
      MinusOne(x, rest);
      MinusAppend(Without(s, x), [x], rest);
      MinusWithout(s, xs);
      Reassociate(kept, Minus([x], rest), LastOccurrences(rest));
    }
  }

  // ----- Suffixes

  ghost predicate Suffix<T>(a: seq<T>, b: seq<T>) {
    |a| <= |b| && b[|b| - |a|..] == a
  }

  lemma {:induction false} WithoutAppend<T>(a: seq<T>, b: seq<T>, x: T)
    ensures Without(a + b, x) == Without(a, x) + Without(b, x)
  {
    if a == [] {
      assert a + b == b;
    } else {
      assert (a + b)[1..] == a[1..] + b;
      WithoutAppend(a[1..], b, x);
    }
  }

  lemma {:induction false} TouchSuffix<T>(a: seq<T>, b: seq<T>, x: T)
    requires Suffix(a, b)
    ensures Suffix(Touch(a, x), Touch(b, x))
  {
    var older := b[..|b| - |a|];
    assert b == older + a;
    WithoutAppend(older, a, x);
    assert Touch(b, x) == Without(older, x) + Touch(a, x);
  }

  lemma {:induction false} TouchAllSuffix<T>(a: seq<T>, b: seq<T>, xs: seq<T>)
    requires Suffix(a, b)
    ensures Suffix(TouchAll(a, xs), TouchAll(b, xs))
    decreases xs
  {
    if xs == [] {
    } else {
      TouchSuffix(a, b, xs[0]);
      TouchAllSuffix(Touch(a, xs[0]), Touch(b, xs[0]), xs[1..]);
    }
  }

  lemma SuffixTrans<T>(a: seq<T>, b: seq<T>, c: seq<T>)
    requires Suffix(a, b) && Suffix(b, c)
    ensures Suffix(a, c)
  {
    assert c[|c| - |b|..][|b| - |a|..] == c[|c| - |a|..];
  }

  lemma DropIsSuffix<T>(s: seq<T>, n: nat)
    requires n <= |s|
    ensures Suffix(s[n..], s)
  {
  }

  // ----- Runs

  /** The record that the step accesses, if any: of a getter that finds nothing its own, of one that goes on
      with an entry that of the entry. Refreshing, setting, storing a result and invalidating access none. */
  ghost function Accessed(s: State, step: Step): seq<Node>
    requires Enabled(s, step)
  {
    match step
    case GetMiss(key) => [FreshNode(s, key)]
    case ProbeMiss(key) => [FreshNode(s, key)]
    case Proceed(w, _) => if s.intents[w].Resolve? then [s.intents[w].entry.node] else []
    case _ => []
  }

  ghost function Accesses(s: State, steps: seq<Step>): seq<Node>
    decreases steps
  {
    if steps == [] || !Enabled(s, steps[0]) then []
    else Accessed(s, steps[0]) + Accesses(After(s, steps[0]), steps[1..])
  }

  /** The step finds the map, with the entry that a miss adds, small enough. */
  ghost predicate Fits(s: State, step: Step) {
    |s.entries| + (if step.GetMiss? then 1 else 0) <= s.capacity
  }

  ghost predicate Recorded(before: seq<Node>, accessed: seq<Node>, fits: bool, after: seq<Node>) {
    Suffix(after, TouchAll(before, accessed)) && (fits ==> after == TouchAll(before, accessed))
  }

  lemma {:induction false} TouchOne<T>(s: seq<T>, x: T)
    ensures TouchAll(s, [x]) == Touch(s, x)
  {
    assert [x][1..] == [];
  }

  lemma {:induction false} TrackedRecency(s: State, node: Node)
    ensures Recorded(s.recency, [node], |s.entries| <= s.capacity, TrackAccess(s, node).recency)
  {
    var touched := Touch(s.recency, node);
    TouchOne(s.recency, node);
    var e := Evict(s.entries, Names(touched), s.capacity);
    DropIsSuffix(touched, e.dropped);
    if |s.entries| <= s.capacity { assert touched[0..] == touched; }
  }

  lemma {:induction false} UntouchedRecency(before: seq<Node>, fits: bool)
    ensures Recorded(before, [], fits, before)
  {
    assert before[0..] == before;
  }

  lemma {:induction false} ResolvedRecency(s: State, w: Fiber, e: Entry, ignorePending: bool, now: int)
    ensures Resolved(s, w, e, ignorePending, now).recency == s.recency
  {}

  lemma {:induction false} ResolveRecency(s: State, w: Fiber, e: Entry, ignorePending: bool, now: int)
    ensures Recorded(s.recency, [e.node], |s.entries| <= s.capacity,
                     ProceedFrom(s, w, Resolve(e, ignorePending), now).recency)
  {
    TrackedRecency(s, e.node);
    ResolvedRecency(TrackAccess(s, e.node), w, e, ignorePending, now);
  }

  lemma {:induction false} QuietRecency(s: State, w: Fiber, intent: Intent, now: int)
    requires !intent.Resolve?
    ensures ProceedFrom(s, w, intent, now).recency == s.recency
  {}

  lemma {:induction false} ProceedRecency(s: State, w: Fiber, now: int)
    requires Enabled(s, Proceed(w, now))
    ensures Recorded(s.recency, Accessed(s, Proceed(w, now)), |s.entries| <= s.capacity,
                     After(s, Proceed(w, now)).recency)
  {
    var r, intent := s.(intents := s.intents - {w}), s.intents[w];
    if intent.Resolve? {
      ResolveRecency(r, w, intent.entry, intent.ignorePending, now);
    } else {
      QuietRecency(r, w, intent, now);
      UntouchedRecency(s.recency, |s.entries| <= s.capacity);
    }
  }

  lemma {:induction false} OneMoreEntry<K, V>(m: map<K, V>, k: K, v: V)
    requires k !in m
    ensures |m[k := v]| == |m| + 1
  {
    CacheSize.OneMoreKey(m, m[k := v], k);
  }

  /** Launching a lookup for a key that is not mapped makes the map one larger. */
  lemma {:induction false} LaunchAddsOne(s: State, key: Key, e: Entry)
    requires key !in s.entries
    ensures var r := Launch(s, key, e);
      |r.entries| == |s.entries| + 1 && r.recency == s.recency && r.capacity == s.capacity
  {
    OneMoreEntry(s.entries, key, e);
  }

  lemma {:induction false} MissRecency(s: State, key: Key)
    requires Enabled(s, GetMiss(key))
    ensures Recorded(s.recency, [FreshNode(s, key)], |s.entries| + 1 <= s.capacity, After(s, GetMiss(key)).recency)
  {
    var node := FreshNode(s, key);
    LaunchAddsOne(s, key, Pending(node, |s.keyOf|));
    TrackedRecency(Launch(s, key, Pending(node, |s.keyOf|)).(nodes := s.nodes + 1), node);
  }

  lemma {:induction false} LookupRecency(s: State, step: Step)
    requires Enabled(s, step) && (step.Install? || step.Finish? || step.CompleteLookup?)
    ensures After(s, step).recency == s.recency
  {}

  lemma {:induction false} ReturnRecency(s: State, d: nat)
    requires Enabled(s, Return(d))
    ensures After(s, Return(d)).recency == s.recency
  {}

  lemma {:induction false} InterruptedRecency(s: State, d: nat, cause: Failing)
    requires d in s.lookups
    ensures Interrupted(s, d, cause).recency == s.recency
  {}

  lemma {:induction false} HandlerRecency(s: State, step: Step)
    requires Enabled(s, step) && (step.HandlerCompletes? || step.HandlerRemoves?)
    ensures After(s, step).recency == s.recency
  {}

  lemma {:induction false} OtherRecency(s: State, step: Step)
    requires Enabled(s, step)
    requires step.BeginGet? || step.RefreshMiss? || step.BeginRefresh? || step.InterruptFiber?
      || step.Put? || step.Invalidate? || step.InvalidateAll?
    ensures After(s, step).recency == s.recency
  {}

  lemma {:induction false} UnaccessedRecency(s: State, step: Step)
    requires Enabled(s, step) && !step.GetMiss? && !step.ProbeMiss? && !step.Proceed?
    ensures After(s, step).recency == s.recency
  {
    match step
    case Install(_) => LookupRecency(s, step);
    case Finish(_, _, _) => LookupRecency(s, step);
    case CompleteLookup(_) => LookupRecency(s, step);
    case Return(d) => ReturnRecency(s, d);
    case InterruptLookup(d, cause) => InterruptedRecency(s, d, cause);
    case HandlerCompletes(_, _) => HandlerRecency(s, step);
    case HandlerRemoves(_) => HandlerRecency(s, step);
    case _ => OtherRecency(s, step);
  }

  /** One step records at most one access, as the most recent, and drops the oldest records only if the map
      is too large. */
  lemma {:induction false} StepRecency(s: State, step: Step)
    requires Enabled(s, step)
    ensures Recorded(s.recency, Accessed(s, step), Fits(s, step), After(s, step).recency)
  {
    match step
    case GetMiss(key) => MissRecency(s, key);
    case ProbeMiss(key) => TrackedRecency(s.(nodes := s.nodes + 1), FreshNode(s, key));
    case Proceed(w, now) => ProceedRecency(s, w, now);
    case _ =>
      UnaccessedRecency(s, step);
      UntouchedRecency(s.recency, Fits(s, step));
  }

  ghost predicate AlwaysFits(s: State, steps: seq<Step>)
    decreases steps
  {
    steps != [] && Enabled(s, steps[0]) ==> Fits(s, steps[0]) && AlwaysFits(After(s, steps[0]), steps[1..])
  }

  lemma {:induction false} TouchAllTwice<T>(s: seq<T>, xs: seq<T>, ys: seq<T>)
    ensures TouchAll(s, xs + ys) == TouchAll(TouchAll(s, xs), ys)
    decreases xs
  {
    if xs == [] {
      assert xs + ys == ys;
    } else {
      assert (xs + ys)[1..] == xs[1..] + ys;
      TouchAllTwice(Touch(s, xs[0]), xs[1..], ys);
    }
  }

  lemma {:induction false} RunTouches(s: State, steps: seq<Step>, t: State)
    requires Run(s, steps, t)
    ensures Recorded(s.recency, Accesses(s, steps), AlwaysFits(s, steps), t.recency)
    decreases steps
  {
    if steps == [] {
      UntouchedRecency(s.recency, true);
    } else {
      var r := After(s, steps[0]);
      var now, later := Accessed(s, steps[0]), Accesses(r, steps[1..]);
      StepRecency(s, steps[0]);
      RunTouches(r, steps[1..], t);
      TouchAllTwice(s.recency, now, later);
      TouchAllSuffix(r.recency, TouchAll(s.recency, now), later);
      SuffixTrans(t.recency, TouchAll(r.recency, later), TouchAll(s.recency, now + later));
    }
  }

  /** From the empty cache on, the recency list is what has been accessed, in the order of the last accesses
      and whatever the fibers do in between, except that the oldest records may be gone; none is gone while
      the entries fit the capacity. */
  lemma {:induction false} RecencyIsLastAccesses(capacity: int, steps: seq<Step>, t: State)
    requires Run(Init(capacity), steps, t)
    ensures var accessed := LastOccurrences(Accesses(Init(capacity), steps));
      && Suffix(t.recency, accessed)
      && (AlwaysFits(Init(capacity), steps) ==> t.recency == accessed)
  {
    var s := Init(capacity);
    RunTouches(s, steps, t);
    TouchedLast<Node>([], Accesses(s, steps));
    assert TouchAll(s.recency, Accesses(s, steps)) == LastOccurrences(Accesses(s, steps));
  }
}
