/** Whether a key is looked up by one fiber at a time. */
module CacheSharing {
  import Causes
  import Core
  import opened Recency
  import opened CacheProtocol
  import opened CacheRuns

  /** The lookup function is running, or is about to. */
  ghost predicate Computing(s: State, d: nat) {
    d in s.lookups && (s.lookups[d].phase == Starting || s.lookups[d].phase == Looking)
  }

  ghost predicate SharedBy(entries: map<Key, Entry>, k: Key, d: nat) {
    k in entries && entries[k].Shares() && entries[k].deferred == d
  }

  /** Every running lookup is the one that its key's entry shares. */
  ghost predicate Sole(s: State) {
    forall d :: Computing(s, d) ==> SharedBy(s.entries, s.lookups[d].key, d)
  }

  /** The entry of the key shares a running lookup. */
  ghost predicate Running(s: State, k: Key) {
    k in s.entries && s.entries[k].Shares() && Computing(s, s.entries[k].deferred)
  }

  /** Then no key is looked up twice at a time. */
  lemma {:induction false} OneLookupAtATime(s: State, c: nat, d: nat)
    requires Sole(s) && Computing(s, c) && Computing(s, d) && s.lookups[c].key == s.lookups[d].key
    ensures c == d
  {
    assert SharedBy(s.entries, s.lookups[c].key, c) && SharedBy(s.entries, s.lookups[d].key, d);
  }

  // ----- Entries that go

  ghost predicate Stays(s: State, t: State, k: Key) {
    k in s.entries && k in t.entries && t.entries[k] == s.entries[k]
  }

  /** The same lookups run, and no entry shares one that did not before. */
  ghost predicate NothingLaunched(s: State, t: State) {
    && (forall d :: Computing(t, d) <==> Computing(s, d))
    && (forall d :: Computing(s, d) ==> t.lookups[d].key == s.lookups[d].key)
    && (forall k :: k in t.entries && t.entries[k].Shares() ==> Stays(s, t, k))
  }

  lemma {:induction false} RunningKey(s: State, k: Key)
    requires Inv(s) && Running(s, k)
    ensures s.lookups[s.entries[k].deferred].key == k
  {
    assert EntryOk(s.entries[k], k, s.lookups, s.abandoned, s.keyOf);
  }

  lemma {:induction false} SoleIfStay(s: State, t: State)
    requires Inv(s) && Sole(s) && NothingLaunched(s, t)
    ensures Sole(t) <==> forall k :: Running(s, k) ==> Stays(s, t, k)
  {
    if Sole(t) {
      forall k | Running(s, k) ensures Stays(s, t, k) {
        RunningKey(s, k);
        assert Computing(t, s.entries[k].deferred);
      }
    }
    if forall k :: Running(s, k) ==> Stays(s, t, k) {
      forall d | Computing(t, d) ensures SharedBy(t.entries, t.lookups[d].key, d) {
        assert Computing(s, d) && SharedBy(s.entries, s.lookups[d].key, d);
        assert Running(s, s.lookups[d].key);
      }
    }
  }

  /** The access evicts the entry of a key that is being looked up. */
  ghost predicate EvictsRunning(s: State, node: Node) {
    exists k :: Running(s, k) && Evicts(s, node, k)
  }

  /** One of the key's records comes so early that without the keys recorded before it the cache is still
      too large. */
  ghost predicate Evicts(s: State, node: Node, k: Key) {
    exists i :: DroppedAt(s.entries, Names(Touch(s.recency, node)), s.capacity, k, i)
  }

  lemma {:induction false} TrackStays(s: State, node: Node, k: Key)
    requires k in s.entries
    ensures Stays(s, TrackAccess(s, node), k) <==> !Evicts(s, node, k)
  {
    TrackAccessDrops(s, node);
    EvictedIff(s.entries, Names(Touch(s.recency, node)), s.capacity, k);
  }

  lemma {:induction false} TrackSoleIff(s: State, node: Node)
    requires Inv(s) && Sole(s)
    ensures Sole(TrackAccess(s, node)) <==> !EvictsRunning(s, node)
  {
    var t := TrackAccess(s, node);
    TrackAccessDrops(s, node);
    SoleIfStay(s, t);
    forall k | Running(s, k) ensures Stays(s, t, k) <==> !Evicts(s, node, k) { TrackStays(s, node, k); }
  }

  // ----- Steps

  /** Launching a lookup for a key that is not being looked up. */
  lemma {:induction false} LaunchSole(s: State, key: Key, e: Entry)
    requires Inv(s) && Sole(s) && !Running(s, key) && e.Shares() && e.deferred == |s.keyOf|
    ensures Sole(Launch(s, key, e))
  {
    var t := Launch(s, key, e);
    forall d | Computing(t, d) ensures SharedBy(t.entries, t.lookups[d].key, d) {
      if d != |s.keyOf| {
        assert Computing(s, d) && SharedBy(s.entries, s.lookups[d].key, d);
      }
    }
  }

  /** A step that lets lookups end or move on, and touches no entry that shares a running one. */
  lemma {:induction false} FewerSole(s: State, t: State)
    requires Sole(s)
    requires forall d :: Computing(t, d) ==> Computing(s, d) && t.lookups[d].key == s.lookups[d].key
    requires forall d :: Computing(t, d) ==> Stays(s, t, s.lookups[d].key)
    ensures Sole(t)
  {
    forall d | Computing(t, d) ensures SharedBy(t.entries, t.lookups[d].key, d) {
      assert SharedBy(s.entries, s.lookups[d].key, d);
    }
  }

  ghost predicate Expired(entry: Entry, now: int) {
    entry.Complete? && now > entry.expires
  }

  /** Exactly the steps after which some running lookup is not the one its key's entry shares: the entry is
      set or invalidated meanwhile, evicted, removed by the handler of another lookup of the key, or
      removed by a getter that read an entry of the key which has expired since. */
  ghost predicate Breaks(s: State, step: Step) {
    match step
    case Put(key, _, _) => Running(s, key)
    case Invalidate(key) => Running(s, key)
    case InvalidateAll => exists k :: Running(s, k)
    case HandlerRemoves(d) => d in s.lookups && Running(s, s.lookups[d].key)
    case GetMiss(key) =>
      var node := FreshNode(s, key);
      EvictsRunning(Launch(s, key, Pending(node, |s.keyOf|)), node)
    case ProbeMiss(key) => EvictsRunning(s, FreshNode(s, key))
    case Proceed(w, now) =>
      && w in s.intents && s.intents[w].Resolve?
      && var e := s.intents[w].entry;
         EvictsRunning(s, e.node) || (Expired(e, now) && Running(s, e.node.key))
    case _ => false
  }

  lemma {:induction false} PutSole(s: State, step: Step)
    requires Inv(s) && Sole(s) && Enabled(s, step) && step.Put?
    ensures Sole(After(s, step)) <==> !Breaks(s, step)
  {
    SoleIfStay(s, After(s, step));
  }

  lemma {:induction false} InvalidateSole(s: State, step: Step)
    requires Inv(s) && Sole(s) && Enabled(s, step) && (step.Invalidate? || step.InvalidateAll?)
    ensures Sole(After(s, step)) <==> !Breaks(s, step)
  {
    SoleIfStay(s, After(s, step));
  }

  lemma {:induction false} RemoveSole(s: State, step: Step)
    requires Inv(s) && Sole(s) && Enabled(s, step) && step.HandlerRemoves?
    ensures Sole(After(s, step)) <==> !Breaks(s, step)
  {
    SoleIfStay(s, After(s, step));
  }

  lemma {:induction false} LaunchedSole(s: State, key: Key, node: Node)
    requires Inv(s) && Sole(s) && key !in s.entries && node.key == key
    ensures var q := Launch(s, key, Pending(node, |s.keyOf|)).(nodes := s.nodes + 1); Inv(q) && Sole(q)
  {
    var e := Pending(node, |s.keyOf|);
    var r := Launch(s, key, e);
    LaunchInv(s, key, e);
    FewerEntries(r, r.(nodes := s.nodes + 1));
    LaunchSole(s, key, e);
    SameRunning(r, r.(nodes := s.nodes + 1));
  }

  lemma AfterMiss(s: State, step: Step, r: State, node: Node)
    requires Enabled(s, step) && step.GetMiss? && node == FreshNode(s, step.key)
    requires r == Launch(s, step.key, Pending(node, |s.keyOf|))
    ensures After(s, step) == TrackAccess(r.(nodes := s.nodes + 1), node)
    ensures Breaks(s, step) <==> EvictsRunning(r, node)
  {}

  lemma {:induction false} MissSole(s: State, step: Step)
    requires Inv(s) && Sole(s) && Enabled(s, step) && step.GetMiss?
    ensures Sole(After(s, step)) <==> !Breaks(s, step)
  {
    var node := FreshNode(s, step.key);
    var r := Launch(s, step.key, Pending(node, |s.keyOf|));
    var q := r.(nodes := s.nodes + 1);
    AfterMiss(s, step, r, node);
    LaunchedSole(s, step.key, node);
    TrackSoleIff(q, node);
    SameEvictions(r, q, node);
  }

  lemma {:induction false} ProbeSole(s: State, step: Step)
    requires Inv(s) && Sole(s) && Enabled(s, step) && step.ProbeMiss?
    ensures Sole(After(s, step)) <==> !Breaks(s, step)
  {
    var q := s.(nodes := s.nodes + 1);
    FewerEntries(s, q);
    SameRunning(s, q);
    TrackSoleIff(q, FreshNode(s, step.key));
    SameEvictions(s, q, FreshNode(s, step.key));
  }

  ghost predicate SameCache(s: State, t: State) {
    t.entries == s.entries && t.lookups == s.lookups && t.recency == s.recency && t.capacity == s.capacity
  }

  lemma {:induction false} SameRunning(s: State, t: State)
    requires SameCache(s, t)
    ensures Sole(t) <==> Sole(s)
    ensures forall k :: Running(t, k) <==> Running(s, k)
  {
    forall d ensures Computing(t, d) <==> Computing(s, d) {}
  }

  lemma {:induction false} SameEvictions(s: State, t: State, node: Node)
    requires SameCache(s, t)
    ensures EvictsRunning(t, node) <==> EvictsRunning(s, node)
  {
    SameRunning(s, t);
    forall k ensures Evicts(t, node, k) <==> Evicts(s, node, k) {}
  }

  lemma {:induction false} ResolvedStays(s: State, w: Fiber, e: Entry, ignorePending: bool, now: int)
    ensures var t := Resolved(s, w, e, ignorePending, now);
      && t.lookups == s.lookups
      && t.entries == if Expired(e, now) then s.entries - {e.node.key} else s.entries
  {}

  lemma {:induction false} ResolveSole(s: State, w: Fiber, e: Entry, ignorePending: bool, now: int)
    requires Inv(s) && Sole(s)
    ensures Sole(ProceedFrom(s, w, Resolve(e, ignorePending), now)) <==>
      !(EvictsRunning(s, e.node) || (Expired(e, now) && Running(s, e.node.key)))
  {
    var r, t := TrackAccess(s, e.node), ProceedFrom(s, w, Resolve(e, ignorePending), now);
    TrackAccessDrops(s, e.node);
    ResolvedStays(r, w, e, ignorePending, now);
    assert t.lookups == s.lookups && forall k :: k in t.entries ==> Stays(s, t, k);
    SoleIfStay(s, t);
    forall k | Running(s, k)
      ensures Stays(s, t, k) <==> !Evicts(s, e.node, k) && !(Expired(e, now) && k == e.node.key)
    {
      TrackStays(s, e.node, k);
    }
  }

  lemma {:induction false} CommitSole(s: State, w: Fiber, e: Entry, now: int)
    requires Inv(s) && Sole(s) && e.Complete?
    ensures Sole(ProceedFrom(s, w, Commit(e), now))
  {
    var key := e.node.key;
    if key in s.entries && s.entries[key] == e {
      LaunchSole(s, key, Refreshing(|s.keyOf|, e.node, e.exit, e.expires));
    }
  }

  lemma {:induction false} ProceedSole(s: State, step: Step)
    requires Inv(s) && Sole(s) && Enabled(s, step) && step.Proceed?
    ensures Sole(After(s, step)) <==> !Breaks(s, step)
  {
    var w := step.fiber;
    var r := s.(intents := s.intents - {w});
    SameRunning(s, r);
    assert IntentOk(s.intents[w], |s.keyOf|);
    match s.intents[w]
    case Await(d) => SameRunning(r, AwaitDeferred(r, w, d));
    case Answer(_) =>
    case Commit(e) => CommitSole(r, w, e, step.now);
    case Resolve(e, ignorePending) =>
      ResolveSole(r, w, e, ignorePending, step.now);
      SameEvictions(s, r, e.node);
  }

  lemma {:induction false} FinishSole(s: State, step: Step)
    requires Sole(s) && Enabled(s, step) && step.Finish?
    ensures Sole(After(s, step))
  {
    var t, d := After(s, step), step.deferred;
    forall c | Computing(t, c) ensures Computing(s, c) && Stays(s, t, s.lookups[c].key) {
      assert SharedBy(s.entries, s.lookups[c].key, c) && SharedBy(s.entries, s.lookups[d].key, d);
    }
    FewerSole(s, t);
  }

  lemma {:induction false} BeginRefreshSole(s: State, step: Step)
    requires Inv(s) && Sole(s) && Enabled(s, step) && step.BeginRefresh?
    ensures Sole(After(s, step))
  {
    var e, t := s.entries[step.key], After(s, step);
    if Expired(e, step.now) {
      SoleIfStay(s, t);
    } else {
      SameRunning(s, t);
    }
  }

  /** Lookups end or move on, and no entry changes. */
  lemma {:induction false} QuietSole(s: State, t: State)
    requires Sole(s) && t.entries == s.entries
    requires forall d :: Computing(t, d) ==> Computing(s, d) && t.lookups[d].key == s.lookups[d].key
    ensures Sole(t)
  {
    forall d | Computing(t, d) ensures Stays(s, t, s.lookups[d].key) {
      assert SharedBy(s.entries, s.lookups[d].key, d);
    }
    FewerSole(s, t);
  }

  lemma {:induction false} AdvanceSole(s: State, d: nat, phase: Phase)
    requires Sole(s) && d in s.lookups && (phase == Starting || phase == Looking ==> Computing(s, d))
    ensures Sole(Advance(s, d, phase))
  {
    QuietSole(s, Advance(s, d, phase));
  }

  lemma {:induction false} CompletionSole(s: State, d: nat, x: Result)
    requires Sole(s)
    ensures Sole(CompleteDeferred(s, d, x))
  {
    SameRunning(s, CompleteDeferred(s, d, x));
  }

  lemma {:induction false} EndSole(s: State, step: Step)
    requires Sole(s) && Enabled(s, step) && (step.Return? || step.InterruptLookup?)
    ensures Sole(After(s, step))
  {
    var d, t := step.deferred, After(s, step);
    if d in t.lookups {
      AdvanceSole(s, d, Interrupting);
      assert t == Advance(s, d, Interrupting);
    } else {
      QuietSole(s, t);
    }
  }

  /** As long as no key is looked up twice at a time, exactly the steps named may change that. */
  lemma {:induction false} SoleIff(s: State, step: Step)
    requires Inv(s) && Sole(s) && Enabled(s, step)
    ensures Sole(After(s, step)) <==> !Breaks(s, step)
  {
    match step
    case GetMiss(_) => MissSole(s, step);
    case ProbeMiss(_) => ProbeSole(s, step);
    case BeginGet(_, _, _) => SameRunning(s, After(s, step));
    case RefreshMiss(key) =>
      var r := Launch(s, key, Pending(FreshNode(s, key), |s.keyOf|));
      LaunchSole(s, key, Pending(FreshNode(s, key), |s.keyOf|));
      SameRunning(r, After(s, step));
    case BeginRefresh(_, _, _) => BeginRefreshSole(s, step);
    case Proceed(_, _) => ProceedSole(s, step);
    case Install(d) => AdvanceSole(s, d, Looking);
    case Finish(_, _, _) => FinishSole(s, step);
    case CompleteLookup(d) =>
      var x := s.lookups[d].phase.exit;
      AdvanceSole(s, d, Settled(x));
      CompletionSole(Advance(s, d, Settled(x)), d, x);
    case Return(_) => EndSole(s, step);
    case InterruptLookup(_, _) => EndSole(s, step);
    case HandlerCompletes(d, id) =>
      AdvanceSole(s, d, Removing);
      CompletionSole(Advance(s, d, Removing), d, Core.Failure(Causes.Interrupt(id)));
    case HandlerRemoves(_) => RemoveSole(s, step);
    case InterruptFiber(_) => SameRunning(s, After(s, step));
    case Put(_, _, _) => PutSole(s, step);
    case Invalidate(_) => InvalidateSole(s, step);
    case InvalidateAll => InvalidateSole(s, step);
  }

  ghost predicate LookedUp(s: State, k: Key, d: nat) {
    Computing(s, d) && s.lookups[d].key == k
  }

  /** A miss starts a second lookup of the key exactly when one is running that no entry shares any more. */
  lemma {:induction false} SecondLookupIff(s: State, step: Step)
    requires Inv(s) && Enabled(s, step) && (step.GetMiss? || step.RefreshMiss?)
    ensures (exists c, d :: c != d && LookedUp(After(s, step), step.key, c) && LookedUp(After(s, step), step.key, d)) <==>
      exists d :: LookedUp(s, step.key, d)
  {
    var k, t := step.key, After(s, step);
    var node := FreshNode(s, k);
    TrackAccessDrops(Launch(s, k, Pending(node, |s.keyOf|)).(nodes := s.nodes + 1), node);
    assert t.lookups == s.lookups[|s.keyOf| := Lookup(k, Starting)];
    assert LookedUp(t, k, |s.keyOf|);
    forall d ensures LookedUp(t, k, d) <==> LookedUp(s, k, d) || d == |s.keyOf| {}
  }

  // ----- Runs

  /** In every state that the steps go through, the running lookups are the ones that entries share. */
  ghost predicate AlwaysSole(s: State, steps: seq<Step>)
    decreases steps
  {
    Sole(s) && (steps != [] && Enabled(s, steps[0]) ==> AlwaysSole(After(s, steps[0]), steps[1..]))
  }

  ghost predicate NeverBreaks(s: State, steps: seq<Step>)
    decreases steps
  {
    steps != [] && Enabled(s, steps[0]) ==>
      !Breaks(s, steps[0]) && NeverBreaks(After(s, steps[0]), steps[1..])
  }

  lemma {:induction false} AlwaysSoleIff(s: State, steps: seq<Step>, t: State)
    requires Inv(s) && Sole(s) && Run(s, steps, t)
    ensures AlwaysSole(s, steps) <==> NeverBreaks(s, steps)
    decreases steps
  {
    if steps == [] {
    } else {
      var r := After(s, steps[0]);
      SoleIff(s, steps[0]);
      StepInv(s, steps[0]);
      if Sole(r) {
        AlwaysSoleIff(r, steps[1..], t);
      } else {
        assert !AlwaysSole(r, steps[1..]);
      }
    }
  }

  /** From the empty cache, a run looks up every key at most once at a time throughout, and shares the
      lookup, exactly when none of its steps is of that kind. */
  lemma {:induction false} LookupsAreSole(capacity: int, steps: seq<Step>, t: State)
    requires Run(Init(capacity), steps, t)
    ensures AlwaysSole(Init(capacity), steps) <==> NeverBreaks(Init(capacity), steps)
  {
    InitInv(capacity);
    AlwaysSoleIff(Init(capacity), steps, t);
  }
}
