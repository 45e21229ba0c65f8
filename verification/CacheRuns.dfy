/** What the cache guarantees over whole runs of its protocol. */
module CacheRuns {
  import opened Causes
  import opened Core
  import opened CacheProtocol

  /** `steps` lead from `s` to `t`, every one of them enabled where it is taken. */
  ghost predicate Run(s: State, steps: seq<Step>, t: State)
    decreases steps
  {
    if steps == [] then s == t else Enabled(s, steps[0]) && Run(After(s, steps[0]), steps[1..], t)
  }

  /** In every reachable state the invariant holds. */
  lemma {:induction false} RunInv(s: State, steps: seq<Step>, t: State)
    requires Inv(s) && Run(s, steps, t)
    ensures Inv(t)
    decreases steps
  {
    if steps == [] {
    } else {
      StepInv(s, steps[0]);
      RunInv(After(s, steps[0]), steps[1..], t);
    }
  }

  /** No two entries of a reachable state share one deferred. */
  lemma {:induction false} DeferredsAreNotShared(s: State, k: Key, l: Key)
    requires Inv(s) && k in s.entries && l in s.entries
    requires s.entries[k].Shares() && s.entries[l].Shares() && s.entries[k].deferred == s.entries[l].deferred
    ensures k == l
  {
    assert EntryOk(s.entries[k], k, s.lookups, s.abandoned, s.keyOf);
    assert EntryOk(s.entries[l], l, s.lookups, s.abandoned, s.keyOf);
  }

  // ----- Stranded waiters

  /** A waiter waits on a lookup that is still going to complete its deferred, unless that lookup was
      abandoned. */
  lemma {:induction false} WaiterIsServedUnlessAbandoned(s: State, w: Fiber)
    requires Inv(s) && w in s.waiting
    ensures Open(s, s.waiting[w]) <==> s.waiting[w] !in s.abandoned
  {}

  ghost function AbandonedBy(s: State, step: Step): set<nat> {
    if Abandons(s, step) then {step.deferred} else {}
  }

  ghost function AbandonedAlong(s: State, steps: seq<Step>): set<nat>
    decreases steps
  {
    if steps == [] || !Enabled(s, steps[0]) then {}
    else AbandonedBy(s, steps[0]) + AbandonedAlong(After(s, steps[0]), steps[1..])
  }

  // ----- What a single step does

  ghost predicate CompletedBy(s: State, step: Step, d: nat, x: Result) {
    || (step == CompleteLookup(d) && d in s.lookups && s.lookups[d].phase == Stored(x))
    || (step.HandlerCompletes? && step.deferred == d && x == Failure(Interrupt(step.interruptor)))
  }

  /** A deferred is completed once, and only by its own lookup or that lookup's interruption handler. */
  ghost predicate CompletedOnce(s: State, step: Step, done: map<nat, Result>) {
    && (forall d :: d in s.done ==> d in done && done[d] == s.done[d])
    && (forall d :: d in done && d !in s.done ==> CompletedBy(s, step, d, done[d]))
  }

  /** The step is one of the lookup that is to complete the deferred. */
  ghost predicate Own(step: Step, d: nat) {
    && (step.Install? || step.Finish? || step.CompleteLookup? || step.Return? || step.InterruptLookup? ||
        step.HandlerCompletes? || step.HandlerRemoves?)
    && step.deferred == d
  }

  /** A result awaits delivery only because its lookup finished with it, and a lookup moves only by its own
      steps. */
  ghost predicate LookupsMove(lookups: map<nat, Lookup>, step: Step, lookups': map<nat, Lookup>) {
    && (forall d :: d in lookups' && lookups'[d].phase.Stored? ==>
          || (d in lookups && lookups[d] == lookups'[d])
          || (step.Finish? && step.deferred == d && step.exit == lookups'[d].phase.exit))
    && (forall d :: d in lookups && !Own(step, d) ==> d in lookups' && lookups'[d] == lookups[d])
  }

  ghost predicate Received(t: State, w: Fiber, d: nat) {
    d in t.done && w in t.resumed && t.resumed[w] == (d, t.done[d])
  }

  /** Nobody stops waiting unless interrupted, or resumed with the value waited for. */
  ghost predicate WaitersKept(waiting: map<Fiber, nat>, step: Step, t: State) {
    forall w :: w in waiting ==>
      (w in t.waiting && t.waiting[w] == waiting[w]) || step == InterruptFiber(w) || Received(t, w, waiting[w])
  }

  ghost predicate AwaitsNow(s: State, step: Step, w: Fiber, d: nat) {
    && step.Proceed? && step.fiber == w && w in s.intents
    && s.intents[w] == Await(d)
  }

  /** A fiber is resumed by the deferred it was waiting for, or was about to wait for. */
  ghost predicate ResumedByItsOwn(s: State, step: Step, resumed: map<Fiber, (nat, Result)>) {
    && (forall w :: w in s.resumed ==> w in resumed && resumed[w] == s.resumed[w])
    && (forall w :: w in resumed && w !in s.resumed ==>
          (w in s.waiting && s.waiting[w] == resumed[w].0) || AwaitsNow(s, step, w, resumed[w].0))
  }

  ghost predicate Sound(s: State, step: Step, t: State) {
    && t.capacity == s.capacity && s.keyOf <= t.keyOf
    && t.abandoned == s.abandoned + AbandonedBy(s, step)
    && CompletedOnce(s, step, t.done)
    && LookupsMove(s.lookups, step, t.lookups)
    && WaitersKept(s.waiting, step, t)
    && ResumedByItsOwn(s, step, t.resumed)
  }

  ghost predicate Quiet(s: State, t: State) {
    && t.capacity == s.capacity && s.keyOf <= t.keyOf && t.done == s.done && t.abandoned == s.abandoned
    && t.waiting == s.waiting && t.resumed == s.resumed
  }

  lemma {:induction false} QuietIsSound(s: State, step: Step, t: State)
    requires Quiet(s, t) && LookupsMove(s.lookups, step, t.lookups) && AbandonedBy(s, step) == {}
    ensures Sound(s, step, t)
  {}

  lemma {:induction false} AwaitIsSound(s: State, step: Step, r: State, d: nat)
    requires step.Proceed? && Quiet(s, r) && s.lookups == r.lookups && AwaitsNow(s, step, step.fiber, d)
    requires step.fiber !in s.waiting && step.fiber !in s.resumed
    ensures Sound(s, step, AwaitDeferred(r, step.fiber, d))
  {}

  lemma {:induction false} TrackAccessQuiet(s: State, node: Node)
    ensures Quiet(s, TrackAccess(s, node)) && TrackAccess(s, node).lookups == s.lookups
    ensures TrackAccess(s, node).intents == s.intents
  {}

  lemma {:induction false} LaunchSound(s: State, step: Step, key: Key, e: Entry)
    requires |s.keyOf| !in s.lookups
    ensures LookupsMove(s.lookups, step, Launch(s, key, e).lookups) && Quiet(s, Launch(s, key, e))
  {}

  lemma {:induction false} ResolvedSound(s: State, step: Step, r: State, e: Entry, ignorePending: bool)
    requires step.Proceed? && step.fiber in s.intents && s.intents[step.fiber] == Resolve(e, ignorePending)
    requires Quiet(s, r) && r.lookups == s.lookups
    ensures Sound(s, step, Resolved(r, step.fiber, e, ignorePending, step.now))
  {
    QuietIsSound(s, step, Resolved(r, step.fiber, e, ignorePending, step.now));
  }

  lemma {:induction false} ProceedSound(s: State, step: Step)
    requires Inv(s) && Enabled(s, step) && step.Proceed?
    ensures Sound(s, step, After(s, step))
  {
    var w := step.fiber;
    var r := s.(intents := s.intents - {w});
    match s.intents[w]
    case Await(d) => AwaitIsSound(s, step, r, d);
    case Resolve(e, ignorePending) =>
      TrackAccessQuiet(r, e.node);
      ResolvedSound(s, step, TrackAccess(r, e.node), e, ignorePending);
    case Answer(_) => QuietIsSound(s, step, r);
    case Commit(e) =>
      LaunchSound(r, step, e.node.key, Refreshing(|s.keyOf|, e.node, e.exit, e.expires));
      QuietIsSound(s, step, After(s, step));
  }

  lemma {:induction false} CompleteSound(s: State, step: Step, r: State, d: nat, x: Result)
    requires Quiet(s, r) && LookupsMove(s.lookups, step, r.lookups) && AbandonedBy(s, step) == {}
    requires CompletedBy(s, step, d, x)
    requires Exclusive(s.intents, s.waiting, s.resumed)
    ensures Sound(s, step, CompleteDeferred(r, d, x))
  {}

  lemma {:induction false} CompletionsSound(s: State, step: Step)
    requires Inv(s) && Enabled(s, step) && (step.CompleteLookup? || step.HandlerCompletes?)
    ensures Sound(s, step, After(s, step))
  {
    var d := step.deferred;
    if step.CompleteLookup? {
      CompleteSound(s, step, Advance(s, d, Settled(s.lookups[d].phase.exit)), d, s.lookups[d].phase.exit);
    } else {
      CompleteSound(s, step, Advance(s, d, Removing), d, Failure(Interrupt(step.interruptor)));
    }
  }

  lemma {:induction false} MissSound(s: State, step: Step)
    requires Inv(s) && Enabled(s, step) && (step.GetMiss? || step.RefreshMiss? || step.ProbeMiss?)
    ensures Sound(s, step, After(s, step))
  {
    var node := FreshNode(s, step.key);
    if step.ProbeMiss? {
      TrackAccessQuiet(s.(nodes := s.nodes + 1), node);
    } else {
      LaunchSound(s, step, step.key, Pending(node, |s.keyOf|));
      TrackAccessQuiet(Launch(s, step.key, Pending(node, |s.keyOf|)).(nodes := s.nodes + 1), node);
    }
    QuietIsSound(s, step, After(s, step));
  }

  lemma {:induction false} AdvanceSound(s: State, step: Step)
    requires Enabled(s, step) && (step.Install? || step.Finish?)
    ensures Sound(s, step, After(s, step))
  {
    assert LookupsMove(s.lookups, step, After(s, step).lookups);
    QuietIsSound(s, step, After(s, step));
  }

  lemma {:induction false} ReturnSound(s: State, step: Step)
    requires Enabled(s, step) && step.Return?
    ensures Sound(s, step, After(s, step))
  {
    var d := step.deferred;
    if RaisesInterruptedOnly(s.lookups[d].phase.exit) {
      QuietIsSound(s, step, Advance(s, d, Interrupting));
    } else {
      QuietIsSound(s, step, s.(lookups := s.lookups - {d}));
    }
  }

  lemma {:induction false} HandlerRemovesSound(s: State, step: Step)
    requires Enabled(s, step) && step.HandlerRemoves?
    ensures Sound(s, step, After(s, step))
  {
    QuietIsSound(s, step, After(s, step));
  }

  lemma {:induction false} InterruptLookupSound(s: State, step: Step)
    requires Enabled(s, step) && step.InterruptLookup?
    ensures Sound(s, step, After(s, step))
  {
    var d := step.deferred;
    if s.lookups[d].phase != Starting && InterruptedOnly(step.cause) {
      QuietIsSound(s, step, Advance(s, d, Interrupting));
    } else {
      assert LookupsMove(s.lookups, step, s.lookups - {d});
    }
  }

  lemma {:induction false} InterruptFiberSound(s: State, step: Step)
    requires Enabled(s, step) && step.InterruptFiber?
    ensures Sound(s, step, After(s, step))
  {}

  lemma {:induction false} BeginGetSound(s: State, step: Step)
    requires Enabled(s, step) && step.BeginGet?
    ensures Sound(s, step, After(s, step))
  {
    QuietIsSound(s, step, After(s, step));
  }

  lemma {:induction false} BeginRefreshSound(s: State, step: Step)
    requires Enabled(s, step) && step.BeginRefresh?
    ensures Sound(s, step, After(s, step))
  {
    var t := StartRefresh(s, step.fiber, step.key, s.entries[step.key], step.now);
    QuietIsSound(s, step, t);
  }

  lemma {:induction false} StoreSound(s: State, step: Step)
    requires Enabled(s, step) && (step.Put? || step.Invalidate? || step.InvalidateAll?)
    ensures Sound(s, step, After(s, step))
  {
    QuietIsSound(s, step, After(s, step));
  }

  /** What every step of the protocol respects. */
  lemma {:induction false} StepSound(s: State, step: Step)
    requires Inv(s) && Enabled(s, step)
    ensures Sound(s, step, After(s, step))
  {
    match step
    case GetMiss(_) => MissSound(s, step);
    case ProbeMiss(_) => MissSound(s, step);
    case BeginGet(_, _, _) => BeginGetSound(s, step);
    case RefreshMiss(_) => MissSound(s, step);
    case BeginRefresh(_, _, _) => BeginRefreshSound(s, step);
    case Proceed(_, _) => ProceedSound(s, step);
    case Install(_) => AdvanceSound(s, step);
    case Finish(_, _, _) => AdvanceSound(s, step);
    case CompleteLookup(_) => CompletionsSound(s, step);
    case Return(_) => ReturnSound(s, step);
    case InterruptLookup(_, _) => InterruptLookupSound(s, step);
    case HandlerCompletes(_, _) => CompletionsSound(s, step);
    case HandlerRemoves(_) => HandlerRemovesSound(s, step);
    case InterruptFiber(_) => InterruptFiberSound(s, step);
    case Put(_, _, _) => StoreSound(s, step);
    case Invalidate(_) => StoreSound(s, step);
    case InvalidateAll => StoreSound(s, step);
  }

  /** Over any run the abandoned deferreds are exactly those abandoned by a step of it: a lookup
      interrupted before its handler is installed, or by a cause that is not one of interruption only. */
  lemma {:induction false} RunAbandons(s: State, steps: seq<Step>, t: State)
    requires Inv(s) && Run(s, steps, t)
    ensures t.abandoned == s.abandoned + AbandonedAlong(s, steps)
    decreases steps
  {
    if steps == [] {
    } else {
      StepSound(s, steps[0]);
      StepInv(s, steps[0]);
      RunAbandons(After(s, steps[0]), steps[1..], t);
    }
  }

  lemma {:induction false} StillStranded(s: State, step: Step, t: State, w: Fiber)
    requires Inv(t) && Sound(s, step, t) && step != InterruptFiber(w)
    requires w in s.waiting && s.waiting[w] in s.abandoned
    ensures w in t.waiting && t.waiting[w] == s.waiting[w] && t.waiting[w] in t.abandoned
  {}

  /** A waiter on an abandoned deferred goes on waiting whatever step others take. */
  lemma {:induction false} StrandedStep(s: State, step: Step, w: Fiber)
    requires Inv(s) && Enabled(s, step) && step != InterruptFiber(w)
    requires w in s.waiting && s.waiting[w] in s.abandoned
    ensures var t := After(s, step); w in t.waiting && t.waiting[w] == s.waiting[w] && t.waiting[w] in t.abandoned
  {
    StepSound(s, step);
    StepInv(s, step);
    StillStranded(s, step, After(s, step), w);
  }

  lemma {:induction false} StrandedForever(s: State, steps: seq<Step>, t: State, w: Fiber)
    requires Inv(s) && Run(s, steps, t) && InterruptFiber(w) !in steps
    requires w in s.waiting && s.waiting[w] in s.abandoned
    ensures w in t.waiting && t.waiting[w] == s.waiting[w]
    decreases steps
  {
    if steps == [] {
    } else {
      assert steps[0] in steps;
      StrandedStep(s, steps[0], w);
      StepInv(s, steps[0]);
      StrandedForever(After(s, steps[0]), steps[1..], t, w);
    }
  }

  /** Completing an open deferred resumes exactly those who wait on it, with its value. */
  lemma {:induction false} CompletionResumesExactly(s: State, d: nat, x: Result, w: Fiber)
    requires d !in s.done && Exclusive(s.intents, s.waiting, s.resumed)
    ensures var t := CompleteDeferred(s, d, x);
      && (w in s.waiting && s.waiting[w] == d ==> w !in t.waiting && w in t.resumed && t.resumed[w] == (d, x))
      && (w in s.waiting && s.waiting[w] != d ==> w in t.waiting && t.waiting[w] == s.waiting[w] && w !in t.resumed)
      && (w !in s.waiting ==> w !in t.waiting && (w in t.resumed <==> w in s.resumed))
      && (w in s.resumed ==> w in t.resumed && t.resumed[w] == s.resumed[w])
  {}

  /** The steps that are left to the lookup of an open deferred. */
  ghost function Remaining(phase: Phase, d: nat, x: Result, expires: int, id: Unknown): seq<Step> {
    match phase
    case Starting => [Install(d), Finish(d, x, expires), CompleteLookup(d)]
    case Looking => [Finish(d, x, expires), CompleteLookup(d)]
    case Stored(_) => [CompleteLookup(d)]
    case Interrupting => [HandlerCompletes(d, id)]
    case Settled(_) => []
    case Removing => []
  }

  ghost predicate Resumes(s: State, t: State, d: nat) {
    d in t.done && forall w :: w in s.waiting && s.waiting[w] == d ==> w in t.resumed && t.resumed[w] == (d, t.done[d])
  }

  lemma {:induction false} RunOne(s: State, step: Step)
    requires Enabled(s, step)
    ensures Run(s, [step], After(s, step))
  {
    assert [step][1..] == [];
  }

  lemma {:induction false} RunMore(s: State, step: Step, rest: seq<Step>, t: State)
    requires Enabled(s, step) && Run(After(s, step), rest, t)
    ensures Run(s, [step] + rest, t)
  {
    assert ([step] + rest)[1..] == rest;
  }

  lemma {:induction false} CompletionWakes(s: State, d: nat)
    requires d in s.lookups && s.lookups[d].phase.Stored? && d !in s.done
    ensures Run(s, [CompleteLookup(d)], After(s, CompleteLookup(d))) && Resumes(s, After(s, CompleteLookup(d)), d)
  {
    RunOne(s, CompleteLookup(d));
  }

  lemma {:induction false} LookingWakes(s: State, d: nat, x: Result, expires: int) returns (t: State)
    requires d in s.lookups && s.lookups[d].phase == Looking && d !in s.done
    ensures Run(s, [Finish(d, x, expires), CompleteLookup(d)], t) && Resumes(s, t, d) && t.done[d] == x
  {
    var r := After(s, Finish(d, x, expires));
    CompletionWakes(r, d);
    t := After(r, CompleteLookup(d));
    RunMore(s, Finish(d, x, expires), [CompleteLookup(d)], t);
  }

  /** An open lookup completes its deferred, and resumes all who wait on it, by its own remaining
      steps. */
  lemma {:induction false} OpenLookupWakesItsWaiters(s: State, d: nat, x: Result, expires: int,
      id: Unknown) returns (t: State)
    requires Inv(s) && Open(s, d)
    ensures Run(s, Remaining(s.lookups[d].phase, d, x, expires, id), t) && Resumes(s, t, d)
  {
    match s.lookups[d].phase
    case Starting =>
      var r := After(s, Install(d));
      t := LookingWakes(r, d, x, expires);
      RunMore(s, Install(d), [Finish(d, x, expires), CompleteLookup(d)], t);
    case Looking => t := LookingWakes(s, d, x, expires);
    case Stored(_) =>
      CompletionWakes(s, d);
      t := After(s, CompleteLookup(d));
    case Interrupting =>
      t := After(s, HandlerCompletes(d, id));
      RunOne(s, HandlerCompletes(d, id));
  }

  /** Some run resumes the fiber without interrupting its wait. */
  ghost predicate CanResume(s: State, w: Fiber) {
    exists steps, t :: Run(s, steps, t) && InterruptFiber(w) !in steps && w in t.resumed
  }

  /** A waiter is stranded exactly when the lookup it waits on was abandoned. */
  lemma {:induction false} StrandedIffAbandoned(s: State, w: Fiber, id: Unknown)
    requires Inv(s) && w in s.waiting
    ensures CanResume(s, w) <==> s.waiting[w] !in s.abandoned
  {
    var d := s.waiting[w];
    if d in s.abandoned {
      forall steps, t | Run(s, steps, t) && InterruptFiber(w) !in steps ensures w !in t.resumed {
        StrandedForever(s, steps, t, w);
        RunInv(s, steps, t);
      }
    } else {
      WaiterIsServedUnlessAbandoned(s, w);
      var x := Failure(Interrupt(id));
      var t := OpenLookupWakesItsWaiters(s, d, x, 0, id);
      assert InterruptFiber(w) !in Remaining(s.lookups[d].phase, d, x, 0, id);
    }
  }

  /** From the empty cache, a run leaves no waiter stranded, now or later, if none of its steps
      abandons a lookup. */
  lemma {:induction false} NoStrandedWaiter(capacity: int, steps: seq<Step>, t: State, w: Fiber, id: Unknown)
    requires Run(Init(capacity), steps, t) && w in t.waiting
    ensures CanResume(t, w) <==> t.waiting[w] !in AbandonedAlong(Init(capacity), steps)
  {
    InitInv(capacity);
    RunInv(Init(capacity), steps, t);
    RunAbandons(Init(capacity), steps, t);
    StrandedIffAbandoned(t, w, id);
  }

  /** Whatever else happens, a lookup that is not abandoned stays open until its deferred is complete. */
  lemma {:induction false} OpenUntilDone(s: State, steps: seq<Step>, t: State, d: nat)
    requires Inv(s) && Run(s, steps, t) && Open(s, d) && d !in AbandonedAlong(s, steps)
    ensures d in t.done || Open(t, d)
  {
    RunInv(s, steps, t);
    RunAbandons(s, steps, t);
    KeysGrow(s, steps, t);
  }

  // ----- The interruption handler

  ghost predicate HandlerInstalled(phase: Phase) {
    phase != Starting
  }

  /** The step makes the handler of the lookup run: it is installed, and what ends the lookup is interruption
      only. */
  ghost predicate StartsHandler(s: State, step: Step, d: nat) {
    && d in s.lookups
    && ((step.InterruptLookup? && step.deferred == d && HandlerInstalled(s.lookups[d].phase) &&
         InterruptedOnly(step.cause))
        || (step == Return(d) && s.lookups[d].phase.Settled? && RaisesInterruptedOnly(s.lookups[d].phase.exit)))
  }

  ghost predicate Ends(step: Step, d: nat) {
    (step.Return? || step.InterruptLookup? || step.HandlerRemoves?) && step.deferred == d
  }

  /** The lookup is over, or its handler is about to run, as the step says. */
  ghost predicate HandlerMoves(s: State, step: Step, d: nat, lookups: map<nat, Lookup>)
    requires d in s.lookups
  {
    && (d !in lookups <==> Ends(step, d) && !StartsHandler(s, step, d))
    && (d in lookups && lookups[d].phase == Interrupting <==>
          StartsHandler(s, step, d) ||
          (s.lookups[d].phase == Interrupting && !(step.HandlerCompletes? && step.deferred == d)))
  }

  lemma {:induction false} ReturnMoves(s: State, step: Step, d: nat)
    requires Enabled(s, step) && d in s.lookups && Own(step, d) && (step.Return? || step.InterruptLookup?)
    ensures HandlerMoves(s, step, d, After(s, step).lookups)
  {}

  lemma {:induction false} HandlerSteps(s: State, step: Step, d: nat)
    requires Enabled(s, step) && d in s.lookups && Own(step, d)
    requires step.Install? || step.Finish? || step.CompleteLookup? || step.HandlerCompletes? || step.HandlerRemoves?
    ensures HandlerMoves(s, step, d, After(s, step).lookups)
  {}

  lemma OtherMoves(s: State, step: Step, d: nat, t: State)
    requires LookupsMove(s.lookups, step, t.lookups) && d in s.lookups && !Own(step, d)
    ensures HandlerMoves(s, step, d, t.lookups)
  {}

  /** A lookup is in flight until it has returned, was interrupted, or its handler has removed the entry; the
      handler is about to run exactly after it was started and until it completes the deferred. */
  lemma {:induction false} HandlerRunsIff(s: State, step: Step, d: nat)
    requires Inv(s) && Enabled(s, step) && d in s.lookups
    ensures HandlerMoves(s, step, d, After(s, step).lookups)
  {
    if !Own(step, d) {
      StepSound(s, step);
      OtherMoves(s, step, d, After(s, step));
    } else if step.Return? || step.InterruptLookup? {
      ReturnMoves(s, step, d);
    } else {
      HandlerSteps(s, step, d);
    }
  }

  // ----- Progress

  /** How many steps of its own an open lookup has at most before its deferred is complete. */
  ghost function StepsLeft(phase: Phase): nat {
    match phase
    case Starting => 4
    case Looking => 3
    case Stored(_) => 2
    case Interrupting => 1
    case _ => 0
  }

  /** A step of its own brings an open lookup closer to completing its deferred, or abandons it. */
  lemma {:induction false} OwnStepAdvances(s: State, step: Step, d: nat)
    requires Inv(s) && Enabled(s, step) && Open(s, d) && Own(step, d) && !Abandons(s, step)
    ensures var t := After(s, step);
      d in t.done || (Open(t, d) && StepsLeft(t.lookups[d].phase) < StepsLeft(s.lookups[d].phase))
  {}

  ghost function OwnSteps(steps: seq<Step>, d: nat): nat {
    if steps == [] then 0 else (if Own(steps[0], d) then 1 else 0) + OwnSteps(steps[1..], d)
  }

  lemma {:induction false} OthersLeaveIt(s: State, step: Step, t: State, d: nat)
    requires Sound(s, step, t) && Inv(t) && Open(s, d) && !Own(step, d)
    ensures d in t.done || (Open(t, d) && t.lookups[d].phase == s.lookups[d].phase)
  {}

  lemma {:induction false} DoneForever(s: State, steps: seq<Step>, t: State, d: nat)
    requires Inv(s) && Run(s, steps, t) && d in s.done
    ensures d in t.done && t.done[d] == s.done[d]
    decreases steps
  {
    if steps == [] {
    } else {
      StepSound(s, steps[0]);
      StepInv(s, steps[0]);
      DoneForever(After(s, steps[0]), steps[1..], t, d);
    }
  }

  /** In whatever way its steps are interleaved with others, a lookup that is not abandoned completes its
      deferred, and so serves all who wait on it, by its fourth step at the latest. */
  lemma {:induction false} CompletesWithinItsSteps(s: State, steps: seq<Step>, t: State, d: nat)
    requires Inv(s) && Run(s, steps, t) && Open(s, d) && d !in AbandonedAlong(s, steps)
    requires OwnSteps(steps, d) >= StepsLeft(s.lookups[d].phase)
    ensures d in t.done
    decreases steps
  {
    if steps == [] {
    } else {
      var r := After(s, steps[0]);
      StepSound(s, steps[0]);
      StepInv(s, steps[0]);
      if Own(steps[0], d) {
        OwnStepAdvances(s, steps[0], d);
      } else {
        OthersLeaveIt(s, steps[0], r, d);
      }
      if d in r.done {
        DoneForever(r, steps[1..], t, d);
      } else {
        CompletesWithinItsSteps(r, steps[1..], t, d);
      }
    }
  }

  lemma {:induction false} KeysGrow(s: State, steps: seq<Step>, t: State)
    requires Inv(s) && Run(s, steps, t)
    ensures |s.keyOf| <= |t.keyOf|
    decreases steps
  {
    if steps == [] {
    } else {
      StepSound(s, steps[0]);
      StepInv(s, steps[0]);
      KeysGrow(After(s, steps[0]), steps[1..], t);
    }
  }

  // ----- What waiters receive

  lemma {:induction false} ReceivedForever(s: State, steps: seq<Step>, t: State, w: Fiber, d: nat)
    requires Inv(s) && Run(s, steps, t) && Received(s, w, d)
    ensures Received(t, w, d)
    decreases steps
  {
    if steps == [] {
    } else {
      StepSound(s, steps[0]);
      StepInv(s, steps[0]);
      StillReceived(s, steps[0], After(s, steps[0]), w, d);
      ReceivedForever(After(s, steps[0]), steps[1..], t, w, d);
    }
  }

  lemma {:induction false} StillReceived(s: State, step: Step, t: State, w: Fiber, d: nat)
    requires Sound(s, step, t) && Received(s, w, d)
    ensures Received(t, w, d)
  {}

  lemma {:induction false} WaitsOrReceives(s: State, step: Step, t: State, w: Fiber)
    requires Sound(s, step, t) && w in s.waiting && step != InterruptFiber(w)
    ensures (w in t.waiting && t.waiting[w] == s.waiting[w]) || Received(t, w, s.waiting[w])
  {}

  /** Through every run a waiter that is not interrupted either still waits on its deferred, which is
      then incomplete, or has been resumed with the value of that deferred. */
  lemma {:induction false} WaiterOutcome(s: State, steps: seq<Step>, t: State, w: Fiber)
    requires Inv(s) && Run(s, steps, t) && w in s.waiting && InterruptFiber(w) !in steps
    ensures var d := s.waiting[w];
      (w in t.waiting && t.waiting[w] == d && d !in t.done) || Received(t, w, d)
    decreases steps
  {
    if steps == [] {
    } else {
      var r := After(s, steps[0]);
      assert steps[0] in steps;
      StepSound(s, steps[0]);
      StepInv(s, steps[0]);
      WaitsOrReceives(s, steps[0], r, w);
      if w in r.waiting && r.waiting[w] == s.waiting[w] {
        WaiterOutcome(r, steps[1..], t, w);
      } else {
        ReceivedForever(r, steps[1..], t, w, s.waiting[w]);
      }
    }
  }

  ghost predicate FinishedWith(steps: seq<Step>, d: nat, x: Result) {
    exists i :: 0 <= i < |steps| && ((steps[i].Finish? && steps[i].deferred == d && steps[i].exit == x)
      || (steps[i].HandlerCompletes? && steps[i].deferred == d && x == Failure(Interrupt(steps[i].interruptor))))
  }

  ghost predicate Accounted(s: State, steps: seq<Step>) {
    && (forall d :: d in s.done ==> FinishedWith(steps, d, s.done[d]))
    && (forall d :: d in s.lookups && s.lookups[d].phase.Stored? ==> FinishedWith(steps, d, s.lookups[d].phase.exit))
  }

  lemma {:induction false} FinishedLonger(steps: seq<Step>, step: Step, d: nat, x: Result)
    ensures FinishedWith(steps, d, x) ==> FinishedWith(steps + [step], d, x)
    ensures step.Finish? && step.deferred == d && step.exit == x ==> FinishedWith(steps + [step], d, x)
    ensures step.HandlerCompletes? && step.deferred == d && x == Failure(Interrupt(step.interruptor)) ==>
              FinishedWith(steps + [step], d, x)
  {
    assert (steps + [step])[|steps|] == step;
    if FinishedWith(steps, d, x) {
      var i :| 0 <= i < |steps| && ((steps[i].Finish? && steps[i].deferred == d && steps[i].exit == x)
        || (steps[i].HandlerCompletes? && steps[i].deferred == d && x == Failure(Interrupt(steps[i].interruptor))));
      assert (steps + [step])[i] == steps[i];
    }
  }

  lemma {:induction false} AccountedStep(s: State, past: seq<Step>, step: Step, t: State)
    requires Accounted(s, past) && Sound(s, step, t)
    ensures Accounted(t, past + [step])
  {
    forall d | d in t.done ensures FinishedWith(past + [step], d, t.done[d]) {
      FinishedLonger(past, step, d, t.done[d]);
    }
    forall d | d in t.lookups && t.lookups[d].phase.Stored?
      ensures FinishedWith(past + [step], d, t.lookups[d].phase.exit)
    {
      FinishedLonger(past, step, d, t.lookups[d].phase.exit);
    }
  }

  lemma {:induction false} AccountedRun(s: State, past: seq<Step>, steps: seq<Step>, t: State)
    requires Inv(s) && Accounted(s, past) && Run(s, steps, t)
    ensures Accounted(t, past + steps)
    decreases steps
  {
    if steps == [] {
      assert past + steps == past;
    } else {
      StepSound(s, steps[0]);
      StepInv(s, steps[0]);
      AccountedStep(s, past, steps[0], After(s, steps[0]));
      AccountedRun(After(s, steps[0]), past + [steps[0]], steps[1..], t);
      assert past + [steps[0]] + steps[1..] == past + steps;
    }
  }

  /** Whoever was resumed received the exit with which the lookup of that deferred finished, or the
      interruption its handler reported; nobody who was resumed still waits. */
  lemma {:induction false} WaitersReceiveTheLookupsExit(capacity: int, steps: seq<Step>, t: State, w: Fiber)
    requires Run(Init(capacity), steps, t) && w in t.resumed
    ensures FinishedWith(steps, t.resumed[w].0, t.resumed[w].1) && w !in t.waiting
    ensures t.resumed[w].0 in t.done && t.done[t.resumed[w].0] == t.resumed[w].1
  {
    InitInv(capacity);
    RunInv(Init(capacity), steps, t);
    AccountedRun(Init(capacity), [], steps, t);
    assert [] + steps == steps;
  }
}
