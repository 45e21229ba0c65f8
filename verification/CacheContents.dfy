/** What the entries of the cache hold, and which keys are mapped. */
module CacheContents {
  import opened CacheProtocol
  import opened CacheRuns
  import opened CacheSharing

  // ----- Where an entry comes from

  /** The last thing that was done about a key: nothing since it was invalidated, a lookup was launched for it
      while it was not mapped, or a result was stored. */
  datatype Origin = Nothing | Launched | StoredAs(exit: Result, expires: int)

  ghost function OriginAfter(s: State, step: Step, k: Key, origin: Origin): Origin {
    match step
    case GetMiss(key) => if key == k then Launched else origin
    case RefreshMiss(key) => if key == k then Launched else origin
    case Put(key, x, expires) => if key == k then StoredAs(x, expires) else origin
    case Finish(d, x, expires) => if d in s.lookups && s.lookups[d].key == k then StoredAs(x, expires) else origin
    case Invalidate(key) => if key == k then Nothing else origin
    case InvalidateAll => Nothing
    case HandlerRemoves(d) => if d in s.lookups && s.lookups[d].key == k then Nothing else origin
    case _ => origin
  }

  ghost function OriginAlong(s: State, steps: seq<Step>, k: Key, origin: Origin): Origin
    decreases steps
  {
    if steps == [] || !Enabled(s, steps[0]) then origin
    else OriginAlong(After(s, steps[0]), steps[1..], k, OriginAfter(s, steps[0], k, origin))
  }

  /** The entry is what the last thing done about its key left. */
  ghost predicate Reflects(e: Entry, origin: Origin) {
    match origin
    case Nothing => false
    case Launched => e.Pending?
    case StoredAs(x, expires) => !e.Pending? && e.exit == x && e.expires == expires
  }

  ghost predicate Traced(s: State, k: Key, origin: Origin) {
    k in s.entries ==> Reflects(s.entries[k], origin)
  }

  lemma {:induction false} TrackTraced(s: State, node: Node, k: Key, origin: Origin)
    requires Traced(s, k, origin)
    ensures Traced(TrackAccess(s, node), k, origin)
  {
    TrackAccessDrops(s, node);
  }

  lemma {:induction false} ProceedTraced(s: State, step: Step, k: Key, origin: Origin)
    requires Inv(s) && Enabled(s, step) && step.Proceed? && Traced(s, k, origin)
    ensures Traced(After(s, step), k, origin)
  {
    var w := step.fiber;
    var r := s.(intents := s.intents - {w});
    assert IntentOk(s.intents[w], |s.keyOf|);
    match s.intents[w]
    case Await(d) =>
    case Answer(_) =>
    case Commit(e) =>
    case Resolve(e, ignorePending) =>
      TrackTraced(r, e.node, k, origin);
      ResolvedStays(TrackAccess(r, e.node), w, e, ignorePending, step.now);
  }

  lemma {:induction false} MissTraced(s: State, step: Step, k: Key, origin: Origin)
    requires Enabled(s, step) && (step.GetMiss? || step.RefreshMiss? || step.ProbeMiss?) && Traced(s, k, origin)
    ensures Traced(After(s, step), k, OriginAfter(s, step, k, origin))
  {
    var node := FreshNode(s, step.key);
    if step.ProbeMiss? {
      TrackTraced(s.(nodes := s.nodes + 1), node, k, origin);
    } else {
      var r := Launch(s, step.key, Pending(node, |s.keyOf|)).(nodes := s.nodes + 1);
      assert Traced(r, k, OriginAfter(s, step, k, origin));
      TrackTraced(r, node, k, OriginAfter(s, step, k, origin));
    }
  }

  lemma {:induction false} StoreTraced(s: State, step: Step, k: Key, origin: Origin)
    requires Enabled(s, step) && Traced(s, k, origin)
    requires step.Put? || step.Finish? || step.Invalidate? || step.InvalidateAll? || step.HandlerRemoves?
    ensures Traced(After(s, step), k, OriginAfter(s, step, k, origin))
  {}

  lemma {:induction false} LookupTraced(s: State, step: Step, k: Key, origin: Origin)
    requires Enabled(s, step) && Traced(s, k, origin)
    requires step.Install? || step.CompleteLookup? || step.Return? || step.InterruptLookup? || step.HandlerCompletes?
    ensures Traced(After(s, step), k, origin)
  {}

  lemma {:induction false} StepTraced(s: State, step: Step, k: Key, origin: Origin)
    requires Inv(s) && Enabled(s, step) && Traced(s, k, origin)
    ensures Traced(After(s, step), k, OriginAfter(s, step, k, origin))
  {
    match step
    case GetMiss(_) => MissTraced(s, step, k, origin);
    case ProbeMiss(_) => MissTraced(s, step, k, origin);
    case RefreshMiss(_) => MissTraced(s, step, k, origin);
    case Proceed(_, _) => ProceedTraced(s, step, k, origin);
    case Put(_, _, _) => StoreTraced(s, step, k, origin);
    case Finish(_, _, _) => StoreTraced(s, step, k, origin);
    case Invalidate(_) => StoreTraced(s, step, k, origin);
    case InvalidateAll => StoreTraced(s, step, k, origin);
    case HandlerRemoves(_) => StoreTraced(s, step, k, origin);
    case BeginGet(_, _, _) =>
    case BeginRefresh(_, _, _) =>
    case InterruptFiber(_) =>
    case _ => LookupTraced(s, step, k, origin);
  }

  lemma {:induction false} RunTraced(s: State, steps: seq<Step>, t: State, k: Key, origin: Origin)
    requires Inv(s) && Run(s, steps, t) && Traced(s, k, origin)
    ensures Traced(t, k, OriginAlong(s, steps, k, origin))
    decreases steps
  {
    if steps == [] {
    } else {
      StepTraced(s, steps[0], k, origin);
      StepInv(s, steps[0]);
      RunTraced(After(s, steps[0]), steps[1..], t, k, OriginAfter(s, steps[0], k, origin));
    }
  }

  /** After every run from the empty cache, the entry of a key holds exactly the result and the expiry that were
      stored for it last, also while it is being refreshed; it has no result when a lookup was launched since,
      and there is none when the key was invalidated, or its lookup interrupted, since. */
  lemma {:induction false} EntriesHoldWhatWasStored(capacity: int, steps: seq<Step>, t: State, k: Key)
    requires Run(Init(capacity), steps, t) && k in t.entries
    ensures Reflects(t.entries[k], OriginAlong(Init(capacity), steps, k, Nothing))
  {
    InitInv(capacity);
    RunTraced(Init(capacity), steps, t, k, Nothing);
  }

  // ----- Which keys are mapped

  ghost predicate Maps(s: State, step: Step, k: Key) {
    || ((step.GetMiss? || step.RefreshMiss? || step.Put?) && step.key == k)
    || (step.Finish? && step.deferred in s.lookups && s.lookups[step.deferred].key == k)
  }

  /** The key is invalidated, removed by an interruption handler of a lookup of it, evicted by the access, or
      removed by a getter or refresher that finds the entry it has read expired. */
  ghost predicate Unmaps(s: State, step: Step, k: Key) {
    match step
    case Invalidate(key) => key == k
    case InvalidateAll => true
    case HandlerRemoves(d) => d in s.lookups && s.lookups[d].key == k
    case GetMiss(key) =>
      var node := FreshNode(s, key);
      Evicts(Launch(s, key, Pending(node, |s.keyOf|)), node, k)
    case ProbeMiss(key) => Evicts(s, FreshNode(s, key), k)
    case BeginRefresh(_, key, now) => key == k && k in s.entries && Expired(s.entries[k], now)
    case Proceed(w, now) =>
      && w in s.intents && s.intents[w].Resolve?
      && var e := s.intents[w].entry;
         Evicts(s, e.node, k) || (Expired(e, now) && e.node.key == k)
    case _ => false
  }

  lemma {:induction false} TrackMaps(s: State, node: Node, k: Key)
    ensures k in TrackAccess(s, node).entries <==> k in s.entries && !Evicts(s, node, k)
  {
    TrackAccessDrops(s, node);
    if k in s.entries { TrackStays(s, node, k); }
  }

  lemma {:induction false} MissMaps(s: State, step: Step, k: Key)
    requires Enabled(s, step) && (step.GetMiss? || step.ProbeMiss?)
    ensures k in After(s, step).entries <==> (k in s.entries || Maps(s, step, k)) && !Unmaps(s, step, k)
  {
    var node := FreshNode(s, step.key);
    var q := if step.GetMiss? then Launch(s, step.key, Pending(node, |s.keyOf|)) else s;
    var r := q.(nodes := s.nodes + 1);
    assert After(s, step) == TrackAccess(r, node);
    TrackMaps(r, node, k);
    assert Evicts(r, node, k) <==> Evicts(q, node, k);
  }

  lemma {:induction false} ProceedMaps(s: State, step: Step, k: Key)
    requires Inv(s) && Enabled(s, step) && step.Proceed?
    ensures k in After(s, step).entries <==> k in s.entries && !Unmaps(s, step, k)
  {
    var w := step.fiber;
    var r := s.(intents := s.intents - {w});
    assert IntentOk(s.intents[w], |s.keyOf|);
    match s.intents[w]
    case Await(d) =>
    case Answer(_) =>
    case Commit(e) =>
    case Resolve(e, ignorePending) =>
      TrackMaps(r, e.node, k);
      ResolvedStays(TrackAccess(r, e.node), w, e, ignorePending, step.now);
      assert Evicts(r, e.node, k) <==> Evicts(s, e.node, k);
  }

  lemma {:induction false} StoreMaps(s: State, step: Step, k: Key)
    requires Enabled(s, step) && (step.Put? || step.Finish? || step.RefreshMiss?)
    ensures k in After(s, step).entries <==> (k in s.entries || Maps(s, step, k)) && !Unmaps(s, step, k)
  {}

  lemma {:induction false} RemoveMaps(s: State, step: Step, k: Key)
    requires Enabled(s, step)
    requires step.Invalidate? || step.InvalidateAll? || step.HandlerRemoves? || step.BeginRefresh?
    ensures k in After(s, step).entries <==> k in s.entries && !Unmaps(s, step, k)
  {}

  lemma {:induction false} OthersMap(s: State, step: Step, k: Key)
    requires Enabled(s, step)
    requires step.BeginGet? || step.InterruptFiber? || step.Install? || step.Return? || step.InterruptLookup?
    ensures k in After(s, step).entries <==> k in s.entries
  {}

  lemma {:induction false} CompletionMaps(s: State, step: Step, k: Key)
    requires Enabled(s, step) && (step.CompleteLookup? || step.HandlerCompletes?)
    ensures k in After(s, step).entries <==> k in s.entries
  {}

  /** A key is mapped after a step exactly when it was, or the step stores it, and the step does not remove
      it. */
  lemma {:induction false} MappedIff(s: State, step: Step, k: Key)
    requires Inv(s) && Enabled(s, step)
    ensures k in After(s, step).entries <==> (k in s.entries || Maps(s, step, k)) && !Unmaps(s, step, k)
  {
    match step
    case GetMiss(_) => MissMaps(s, step, k);
    case ProbeMiss(_) => MissMaps(s, step, k);
    case Proceed(_, _) => ProceedMaps(s, step, k);
    case Put(_, _, _) => StoreMaps(s, step, k);
    case Finish(_, _, _) => StoreMaps(s, step, k);
    case RefreshMiss(_) => StoreMaps(s, step, k);
    case Invalidate(_) => RemoveMaps(s, step, k);
    case InvalidateAll => RemoveMaps(s, step, k);
    case HandlerRemoves(_) => RemoveMaps(s, step, k);
    case BeginRefresh(_, _, _) => RemoveMaps(s, step, k);
    case CompleteLookup(_) => CompletionMaps(s, step, k);
    case HandlerCompletes(_, _) => CompletionMaps(s, step, k);
    case _ => OthersMap(s, step, k);
  }
}
