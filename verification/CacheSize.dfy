/** How large the cache gets, and which entries it evicts. */
module CacheSize {
  import opened Recency
  import opened CacheProtocol
  import opened CacheRuns

  ghost function Uncovered(s: State): set<Key> {
    s.entries.Keys - Members(Names(s.recency))
  }

  ghost function Max(a: int, b: int): int { if a < b then b else a }

  /** After an access the map fits the capacity, unless too many keys have no record at all. */
  lemma {:induction false} AccessBound(s: State, node: Node)
    ensures |TrackAccess(s, node).entries| <= Max(s.capacity, |Uncovered(s.(recency := Touch(s.recency, node)))|)
  {
    EvictBound(s.entries, Names(Touch(s.recency, node)), s.capacity);
  }

  /** No entry is evicted while the map fits the capacity. */
  lemma {:induction false} NoNeedlessEviction(s: State, node: Node)
    ensures |s.entries| <= s.capacity ==> TrackAccess(s, node).entries == s.entries
    ensures |s.entries| > s.capacity ==> |TrackAccess(s, node).entries| >= s.capacity
  {
    if |s.entries| > s.capacity {
      EvictKeepsCapacity(s.entries, Names(Touch(s.recency, node)), s.capacity);
    }
  }

  /** Steps that store a key which is not mapped without recording its access. */
  ghost predicate StoresUnrecorded(s: State, step: Step) {
    || (step.Put? && step.key !in s.entries)
    || step.RefreshMiss?
    || (step.Finish? && Enabled(s, step) && s.lookups[step.deferred].key !in s.entries)
  }

  /** The cache holds no more entries than it may. */
  ghost predicate Within(s: State) {
    |s.entries| <= Max(s.capacity, 0)
  }

  ghost predicate Full(s: State) {
    |s.entries| >= Max(s.capacity, 0)
  }

  /** After an access only other keys can be without a record. */
  lemma TouchedIsCovered(s: State, node: Node)
    ensures Uncovered(s.(recency := Touch(s.recency, node))) <= s.entries.Keys - {node.key}
  {
    var touched := Touch(s.recency, node);
    assert touched[|touched| - 1] == node && Names(touched)[|touched| - 1] == node.key;
  }

  lemma FewerMembers<T>(a: set<T>, b: set<T>)
    requires a <= b
    ensures |a| <= |b|
  {
    assert b == a + (b - a);
  }

  /** An access to a key brings the map back within the capacity, if only that key can be one too many. */
  lemma {:induction false} AccessWithin(s: State, node: Node)
    requires |s.entries.Keys - {node.key}| <= Max(s.capacity, 0)
    ensures Within(TrackAccess(s, node)) && TrackAccess(s, node).capacity == s.capacity
  {
    AccessBound(s, node);
    TouchedIsCovered(s, node);
    FewerMembers(Uncovered(s.(recency := Touch(s.recency, node))), s.entries.Keys - {node.key});
  }

  ghost predicate Shrinks(s: State, t: State) {
    t.capacity == s.capacity && t.entries.Keys <= s.entries.Keys
  }

  lemma {:induction false} SmallerWithin(s: State, t: State)
    requires Within(s) && Shrinks(s, t)
    ensures Within(t)
  {
    FewerMembers(t.entries.Keys, s.entries.Keys);
  }

  lemma {:induction false} ResolvedShrinks(s: State, w: Fiber, entry: Entry, ignorePending: bool, now: int)
    ensures Shrinks(s, Resolved(s, w, entry, ignorePending, now))
  {}

  lemma {:induction false} CommitShrinks(s: State, w: Fiber, entry: Entry, now: int)
    ensures Shrinks(s, ProceedFrom(s, w, Commit(entry), now))
  {}

  lemma {:induction false} AwaitShrinks(s: State, w: Fiber, d: nat, now: int)
    ensures Shrinks(s, ProceedFrom(s, w, Await(d), now))
  {}

  lemma {:induction false} ProceedWithin(s: State, w: Fiber, intent: Intent, now: int)
    requires Within(s)
    ensures Within(ProceedFrom(s, w, intent, now)) && ProceedFrom(s, w, intent, now).capacity == s.capacity
  {
    var t := ProceedFrom(s, w, intent, now);
    match intent
    case Await(d) =>
      AwaitShrinks(s, w, d, now);
      SmallerWithin(s, t);
    case Answer(_) =>
    case Commit(entry) =>
      CommitShrinks(s, w, entry, now);
      SmallerWithin(s, t);
    case Resolve(entry, ignorePending) =>
      OthersAreFewer(s, entry.node.key);
      AccessWithin(s, entry.node);
      ResolvedShrinks(TrackAccess(s, entry.node), w, entry, ignorePending, now);
      SmallerWithin(TrackAccess(s, entry.node), t);
  }

  lemma {:induction false} MissWithin(s: State, step: Step)
    requires Within(s) && Enabled(s, step) && step.GetMiss?
    ensures Within(After(s, step)) && After(s, step).capacity == s.capacity
  {
    var node := FreshNode(s, step.key);
    var r := Launch(s, step.key, Pending(node, |s.keyOf|)).(nodes := s.nodes + 1);
    assert r.entries.Keys - {step.key} == s.entries.Keys;
    AccessWithin(r, node);
  }

  lemma {:induction false} ProbeWithin(s: State, step: Step)
    requires Within(s) && Enabled(s, step) && step.ProbeMiss?
    ensures Within(After(s, step)) && After(s, step).capacity == s.capacity
  {
    var r := s.(nodes := s.nodes + 1);
    OthersAreFewer(r, step.key);
    AccessWithin(r, FreshNode(s, step.key));
  }

  lemma OthersAreFewer(s: State, k: Key)
    ensures |s.entries.Keys - {k}| <= |s.entries|
  {
    FewerMembers(s.entries.Keys - {k}, s.entries.Keys);
  }

  lemma {:induction false} LookupStepShrinks(s: State, step: Step)
    requires Enabled(s, step) && !StoresUnrecorded(s, step)
    requires step.Install? || step.Finish? || step.CompleteLookup? || step.Return? || step.InterruptLookup?
    ensures Shrinks(s, After(s, step))
  {}

  lemma {:induction false} OtherStepShrinks(s: State, step: Step)
    requires Enabled(s, step) && !StoresUnrecorded(s, step)
    requires step.BeginGet? || step.BeginRefresh? || step.HandlerCompletes? || step.HandlerRemoves?
      || step.InterruptFiber? || step.Put? || step.Invalidate? || step.InvalidateAll?
    ensures Shrinks(s, After(s, step))
  {}

  lemma {:induction false} RecordedStepWithin(s: State, step: Step)
    requires Within(s) && Enabled(s, step) && !StoresUnrecorded(s, step)
    ensures Within(After(s, step)) && After(s, step).capacity == s.capacity
  {
    if step.GetMiss? {
      MissWithin(s, step);
    } else if step.ProbeMiss? {
      ProbeWithin(s, step);
    } else if step.Proceed? {
      SmallerWithin(s, s.(intents := s.intents - {step.fiber}));
      ProceedWithin(s.(intents := s.intents - {step.fiber}), step.fiber, s.intents[step.fiber], step.now);
    } else {
      if step.Install? || step.Finish? || step.CompleteLookup? || step.Return? || step.InterruptLookup? {
        LookupStepShrinks(s, step);
      } else {
        OtherStepShrinks(s, step);
      }
      SmallerWithin(s, After(s, step));
    }
  }

  lemma {:induction false} OneMoreKey<K, V>(m: map<K, V>, n: map<K, V>, k: K)
    requires k !in m && n.Keys == m.Keys + {k}
    ensures |n| == |m| + 1
  {
    assert |n.Keys| == |m.Keys| + 1;
  }

  lemma {:induction false} PutAddsOne(s: State, step: Step)
    requires Enabled(s, step) && step.Put? && step.key !in s.entries
    ensures |After(s, step).entries| == |s.entries| + 1
  {
    var e := Complete(FreshNode(s, step.key), step.exit, step.expires);
    OneMoreKey(s.entries, s.entries[step.key := e], step.key);
  }

  lemma {:induction false} RefreshAddsOne(s: State, step: Step)
    requires Enabled(s, step) && step.RefreshMiss?
    ensures |After(s, step).entries| == |s.entries| + 1
  {
    OneMoreKey(s.entries, After(s, step).entries, step.key);
  }

  lemma {:induction false} FinishAddsOne(s: State, step: Step)
    requires Enabled(s, step) && step.Finish? && s.lookups[step.deferred].key !in s.entries
    ensures |After(s, step).entries| == |s.entries| + 1
  {
    OneMoreKey(s.entries, After(s, step).entries, s.lookups[step.deferred].key);
  }

  lemma {:induction false} StoringAddsOne(s: State, step: Step)
    requires Enabled(s, step) && StoresUnrecorded(s, step)
    ensures |After(s, step).entries| == |s.entries| + 1
  {
    if step.Put? {
      PutAddsOne(s, step);
    } else if step.RefreshMiss? {
      RefreshAddsOne(s, step);
    } else {
      FinishAddsOne(s, step);
    }
  }

  /** A step leads beyond the capacity exactly when it stores an unmapped key without recording it in a
      cache that is full. */
  lemma {:induction false} OverflowsIff(s: State, step: Step)
    requires Within(s) && Enabled(s, step)
    ensures !Within(After(s, step)) <==> StoresUnrecorded(s, step) && Full(s)
  {
    if StoresUnrecorded(s, step) {
      CapacityStays(s, step);
      StoringAddsOne(s, step);
    } else {
      RecordedStepWithin(s, step);
    }
  }

  lemma CapacityStays(s: State, step: Step)
    requires Enabled(s, step) && StoresUnrecorded(s, step)
    ensures After(s, step).capacity == s.capacity
  {}

  /** Every state that the steps go through is within the capacity. */
  ghost predicate AlwaysWithin(s: State, steps: seq<Step>)
    decreases steps
  {
    Within(s) && (steps != [] && Enabled(s, steps[0]) ==> AlwaysWithin(After(s, steps[0]), steps[1..]))
  }

  /** None of the steps stores an unmapped key without recording it while the cache is full. */
  ghost predicate NeverOverfills(s: State, steps: seq<Step>)
    decreases steps
  {
    steps != [] && Enabled(s, steps[0]) ==>
      !(StoresUnrecorded(s, steps[0]) && Full(s)) && NeverOverfills(After(s, steps[0]), steps[1..])
  }

  /** A run stays within the capacity throughout exactly when none of its steps stores an unmapped key
      without recording it while the cache is full. */
  lemma {:induction false} NeverOverCapacity(s: State, steps: seq<Step>, t: State)
    requires Within(s) && Run(s, steps, t)
    ensures AlwaysWithin(s, steps) <==> NeverOverfills(s, steps)
    decreases steps
  {
    if steps == [] {
    } else {
      var r := After(s, steps[0]);
      OverflowsIff(s, steps[0]);
      if Within(r) {
        NeverOverCapacity(r, steps[1..], t);
      } else {
        assert !AlwaysWithin(r, steps[1..]);
      }
    }
  }

  /** Exactly when the access to a mapped key evicts that very key: one of its records, perhaps an older
      one, comes so early that without the keys recorded before it the cache is still too large. */
  lemma {:induction false} AccessEvictsItselfIff(s: State, node: Node)
    requires node.key in s.entries
    ensures node.key !in TrackAccess(s, node).entries <==>
      exists i :: DroppedAt(s.entries, Names(Touch(s.recency, node)), s.capacity, node.key, i)
  {
    EvictedIff(s.entries, Names(Touch(s.recency, node)), s.capacity, node.key);
  }
}
