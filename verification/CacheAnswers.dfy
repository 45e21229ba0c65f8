/** What getters and refreshers do with the entries they have read, whatever others do meanwhile. */
module CacheAnswers {
  import opened CacheProtocol
  import opened CacheRuns

  /** The steps leave the fiber to itself: it neither goes on nor is interrupted. */
  ghost predicate Undisturbed(steps: seq<Step>, w: Fiber) {
    forall i :: 0 <= i < |steps| ==> !Disturbs(steps[i], w)
  }

  ghost predicate Disturbs(step: Step, w: Fiber) {
    (step.Proceed? || step.InterruptFiber?) && step.fiber == w
  }

  /** The fiber is still going to do the same. */
  ghost predicate SameIntent(s: State, t: State, w: Fiber) {
    w in s.intents && w in t.intents && t.intents[w] == s.intents[w]
  }

  lemma {:induction false} ResolvedForOther(s: State, v: Fiber, e: Entry, ignorePending: bool, now: int, w: Fiber)
    requires w != v && w in s.intents
    ensures SameIntent(s, Resolved(s, v, e, ignorePending, now), w)
  {}

  lemma {:induction false} ProceedForOther(s: State, step: Step, w: Fiber)
    requires Enabled(s, step) && step.Proceed? && step.fiber != w && w in s.intents
    ensures SameIntent(s, After(s, step), w)
  {
    var v := step.fiber;
    var r := s.(intents := s.intents - {v});
    match s.intents[v]
    case Resolve(e, ignorePending) => ResolvedForOther(TrackAccess(r, e.node), v, e, ignorePending, step.now, w);
    case _ =>
  }

  lemma {:induction false} LookupForOther(s: State, step: Step, w: Fiber)
    requires Enabled(s, step) && w in s.intents
    requires step.Install? || step.Finish? || step.CompleteLookup? || step.Return? || step.InterruptLookup?
      || step.HandlerCompletes? || step.HandlerRemoves?
    ensures SameIntent(s, After(s, step), w)
  {}

  lemma {:induction false} OtherStepKeepsIntent(s: State, step: Step, w: Fiber)
    requires Enabled(s, step) && w in s.intents && !Disturbs(step, w)
    ensures SameIntent(s, After(s, step), w)
  {
    match step
    case Proceed(_, _) => ProceedForOther(s, step, w);
    case Install(_) => LookupForOther(s, step, w);
    case Finish(_, _, _) => LookupForOther(s, step, w);
    case CompleteLookup(_) => LookupForOther(s, step, w);
    case Return(_) => LookupForOther(s, step, w);
    case InterruptLookup(_, _) => LookupForOther(s, step, w);
    case HandlerCompletes(_, _) => LookupForOther(s, step, w);
    case HandlerRemoves(_) => LookupForOther(s, step, w);
    case _ =>
  }

  /** What a fiber has read stays read until it goes on. */
  lemma {:induction false} IntentStays(s: State, steps: seq<Step>, t: State, w: Fiber)
    requires Run(s, steps, t) && w in s.intents && Undisturbed(steps, w)
    ensures SameIntent(s, t, w)
    decreases steps
  {
    if steps == [] {
    } else {
      assert !Disturbs(steps[0], w);
      OtherStepKeepsIntent(s, steps[0], w);
      assert forall i :: 0 <= i < |steps[1..]| ==> steps[1..][i] == steps[i + 1];
      IntentStays(After(s, steps[0]), steps[1..], t, w);
    }
  }

  // ----- Getters

  ghost predicate Fresh(e: Entry, now: int) {
    !e.Pending? && now <= e.expires
  }

  /** The lookup that the entry shares is worth waiting for: it has no result, or one that has expired. */
  ghost predicate Awaited(e: Entry, ignorePending: bool, now: int) {
    !ignorePending && (e.Pending? || (e.Refreshing? && now > e.expires))
  }

  /** What a getter that has read the entry does from now on: it is answered with the result exactly when there
      is one that has not expired, waits for the lookup the entry shares exactly when there is no result, or an
      expired one, and pending lookups are not to be ignored, and otherwise has found nothing. */
  ghost predicate Decided(t: State, w: Fiber, e: Entry, ignorePending: bool, now: int) {
    && (w in t.intents <==> Fresh(e, now) || Awaited(e, ignorePending, now))
    && (Fresh(e, now) ==> w in t.intents && t.intents[w] == Answer(e.exit))
    && (Awaited(e, ignorePending, now) ==> w in t.intents && t.intents[w] == Await(e.deferred))
    && w !in t.waiting && w !in t.resumed
  }

  /** However long after reading an entry a getter goes on, what it does depends on that entry alone. */
  lemma {:induction false} GetterOutcome(s: State, k: Key, w: Fiber, ignorePending: bool, steps: seq<Step>, r: State,
      now: int)
    requires Inv(s) && Enabled(s, BeginGet(w, k, ignorePending))
    requires Run(After(s, BeginGet(w, k, ignorePending)), steps, r) && Undisturbed(steps, w)
    ensures Enabled(r, Proceed(w, now))
    ensures Decided(After(r, Proceed(w, now)), w, s.entries[k], ignorePending, now)
  {
    var q := After(s, BeginGet(w, k, ignorePending));
    IntentStays(q, steps, r, w);
    StepInv(s, BeginGet(w, k, ignorePending));
    RunInv(q, steps, r);
    ResolveOutcome(r, w, s.entries[k], ignorePending, now);
  }

  lemma {:induction false} ResolveOutcome(r: State, w: Fiber, e: Entry, ignorePending: bool, now: int)
    requires Exclusive(r.intents, r.waiting, r.resumed) && w in r.intents && r.intents[w] == Resolve(e, ignorePending)
    ensures Decided(After(r, Proceed(w, now)), w, e, ignorePending, now)
  {
    var q := r.(intents := r.intents - {w});
    TrackAccessQuiet(q, e.node);
    ResolvedDecides(TrackAccess(q, e.node), w, e, ignorePending, now);
  }

  lemma {:induction false} ResolvedDecides(s: State, w: Fiber, e: Entry, ignorePending: bool, now: int)
    requires Idle(s, w)
    ensures Decided(Resolved(s, w, e, ignorePending, now), w, e, ignorePending, now)
  {}

  /** An answer ends the get and touches nothing. */
  lemma {:induction false} AnswerOutcome(s: State, w: Fiber, x: Result, steps: seq<Step>, r: State, now: int)
    requires w in s.intents && s.intents[w] == Answer(x) && Run(s, steps, r) && Undisturbed(steps, w)
    ensures Enabled(r, Proceed(w, now)) && After(r, Proceed(w, now)) == r.(intents := r.intents - {w})
  {
    IntentStays(s, steps, r, w);
  }

  /** A fiber that is to wait for a deferred does so exactly when it is still open, and otherwise receives its
      value at once. */
  lemma {:induction false} AwaitOutcome(s: State, w: Fiber, d: nat, steps: seq<Step>, r: State, now: int)
    requires Inv(s) && w in s.intents && s.intents[w] == Await(d) && Run(s, steps, r) && Undisturbed(steps, w)
    ensures Enabled(r, Proceed(w, now))
    ensures var t := After(r, Proceed(w, now));
      && (d !in r.done ==> w in t.waiting && t.waiting[w] == d && w !in t.resumed)
      && (d in r.done ==> w !in t.waiting && Received(t, w, d))
  {
    IntentStays(s, steps, r, w);
    RunInv(s, steps, r);
  }

  // ----- Refreshers

  /** A refresh waits for a lookup that is on its way, starts over when the value has expired, and otherwise
      means to look the key up. */
  lemma {:induction false} RefreshReads(s: State, k: Key, w: Fiber, now: int)
    requires Enabled(s, BeginRefresh(w, k, now))
    ensures var e, t := s.entries[k], After(s, BeginRefresh(w, k, now));
      && (w in t.intents <==> e.Shares() || now <= e.expires)
      && (w in t.intents ==> t.intents[w] == if e.Shares() then Await(e.deferred) else Commit(e))
      && (k in t.entries <==> w in t.intents)
  {}

  /** It does look the key up exactly when, however much later it goes on, the entry is still the one it has
      read; the old result then stays available until the new one is there. */
  lemma {:induction false} RefreshOutcome(s: State, w: Fiber, e: Entry, steps: seq<Step>, r: State, now: int)
    requires w in s.intents && s.intents[w] == Commit(e) && e.Complete? && Run(s, steps, r) && Undisturbed(steps, w)
    ensures Enabled(r, Proceed(w, now))
    ensures var k, d, t := e.node.key, |r.keyOf|, After(r, Proceed(w, now));
      && (|t.keyOf| == d + 1 <==> k in r.entries && r.entries[k] == e)
      && (|t.keyOf| == d + 1 ==>
            && d in t.lookups && t.lookups[d] == Lookup(k, Starting)
            && k in t.entries && t.entries[k] == Refreshing(d, e.node, e.exit, e.expires))
      && (|t.keyOf| != d + 1 ==> t.entries == r.entries && t.lookups == r.lookups)
      && w !in t.intents
  {
    IntentStays(s, steps, r, w);
  }

  // ----- Interrupted fibers

  ghost predicate Begins(step: Step, w: Fiber) {
    (step.BeginGet? || step.BeginRefresh?) && step.fiber == w
  }

  lemma {:induction false} ProceedIdle(s: State, step: Step, w: Fiber)
    requires Inv(s) && Enabled(s, step) && step.Proceed? && Idle(s, w)
    ensures Idle(After(s, step), w)
  {
    var v := step.fiber;
    var r := s.(intents := s.intents - {v});
    match s.intents[v]
    case Resolve(e, ignorePending) =>
      TrackAccessQuiet(r, e.node);
      ResolvedIdle(TrackAccess(r, e.node), v, e, ignorePending, step.now, w);
    case _ =>
  }

  lemma {:induction false} ResolvedIdle(s: State, v: Fiber, e: Entry, ignorePending: bool, now: int, w: Fiber)
    requires Idle(s, w) && w != v
    ensures Idle(Resolved(s, v, e, ignorePending, now), w)
  {}

  lemma {:induction false} LookupIdle(s: State, step: Step, w: Fiber)
    requires Enabled(s, step) && Idle(s, w)
    requires step.Install? || step.Finish? || step.Return? || step.InterruptLookup?
    ensures Idle(After(s, step), w)
  {}

  lemma {:induction false} HandlerIdle(s: State, step: Step, w: Fiber)
    requires Enabled(s, step) && Idle(s, w)
    requires step.CompleteLookup? || step.HandlerCompletes? || step.HandlerRemoves?
    ensures Idle(After(s, step), w)
  {}

  lemma {:induction false} OtherIdle(s: State, step: Step, w: Fiber)
    requires Enabled(s, step) && Idle(s, w) && !Begins(step, w)
    requires step.BeginGet? || step.BeginRefresh? || step.RefreshMiss? || step.InterruptFiber? || step.Put?
      || step.Invalidate? || step.InvalidateAll?
    ensures Idle(After(s, step), w)
  {}

  lemma {:induction false} MissIdle(s: State, step: Step, w: Fiber)
    requires Enabled(s, step) && Idle(s, w) && (step.GetMiss? || step.ProbeMiss?)
    ensures Idle(After(s, step), w)
  {
    var node := FreshNode(s, step.key);
    TrackAccessQuiet(s.(nodes := s.nodes + 1), node);
    TrackAccessQuiet(Launch(s, step.key, Pending(node, |s.keyOf|)).(nodes := s.nodes + 1), node);
  }

  lemma {:induction false} StepIdle(s: State, step: Step, w: Fiber)
    requires Inv(s) && Enabled(s, step) && Idle(s, w) && !Begins(step, w)
    ensures Idle(After(s, step), w)
  {
    match step
    case Proceed(_, _) => ProceedIdle(s, step, w);
    case GetMiss(_) => MissIdle(s, step, w);
    case ProbeMiss(_) => MissIdle(s, step, w);
    case Install(_) => LookupIdle(s, step, w);
    case Finish(_, _, _) => LookupIdle(s, step, w);
    case CompleteLookup(_) => HandlerIdle(s, step, w);
    case Return(_) => LookupIdle(s, step, w);
    case InterruptLookup(_, _) => LookupIdle(s, step, w);
    case HandlerCompletes(_, _) => HandlerIdle(s, step, w);
    case HandlerRemoves(_) => HandlerIdle(s, step, w);
    case _ => OtherIdle(s, step, w);
  }

  lemma {:induction false} StaysIdle(s: State, steps: seq<Step>, t: State, w: Fiber)
    requires Inv(s) && Run(s, steps, t) && Idle(s, w)
    requires forall i :: 0 <= i < |steps| ==> !Begins(steps[i], w)
    ensures Idle(t, w)
    decreases steps
  {
    if steps == [] {
    } else {
      assert !Begins(steps[0], w);
      StepInv(s, steps[0]);
      StepIdle(s, steps[0], w);
      assert forall i :: 0 <= i < |steps[1..]| ==> steps[1..][i] == steps[i + 1];
      StaysIdle(After(s, steps[0]), steps[1..], t, w);
    }
  }

  /** A fiber that is interrupted before it is resumed does nothing more, waits for nothing and is never resumed,
      whatever the others do and whichever lookups complete, unless it begins anew. */
  lemma {:induction false} InterruptedGetsNothing(s: State, w: Fiber, steps: seq<Step>, t: State)
    requires Inv(s) && Enabled(s, InterruptFiber(w)) && Run(After(s, InterruptFiber(w)), steps, t)
    requires forall i :: 0 <= i < |steps| ==> !Begins(steps[i], w)
    ensures Idle(t, w)
  {
    StepInv(s, InterruptFiber(w));
    StaysIdle(After(s, InterruptFiber(w)), steps, t, w);
  }
}
