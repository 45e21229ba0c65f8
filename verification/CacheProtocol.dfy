/**
  The protocol by which concurrent getters share lookups. Every step is one synchronous piece of the
  source between two points at which fibers may be interleaved.
 */
module CacheProtocol {
  import opened Causes
  import opened CauseFilters
  import opened Core
  import opened Recency

  type Key(==, !new)
  type Fiber(==, !new)
  type Result = Exit<Unknown, Unknown>

  /** A `MapKey`, told apart from the others for the same key by its number. */
  datatype Node = Node(key: Key, id: nat)

  /** Deferreds are numbered in the order of their creation. */
  datatype Entry =
    | Complete(node: Node, exit: Result, expires: int)
    | Pending(node: Node, deferred: nat)
    | Refreshing(deferred: nat, node: Node, exit: Result, expires: int)
  {
    predicate Shares() { Pending? || Refreshing? }
  }

  /** How far a lookup has come:
       Starting: its deferred is in the map, its interruption handler is not installed yet;
       Looking: the lookup function runs;
       Stored: the result is in the map, the deferred is still open;
       Settled: the deferred is complete, the exit is about to be raised;
       Interrupting, Removing: the interruption handler is about to complete the deferred, or to
       remove the entry. */
  datatype Phase = Starting | Looking | Stored(exit: Result) | Settled(exit: Result) | Interrupting | Removing

  datatype Lookup = Lookup(key: Key, phase: Phase)

  /** What a fiber that has read an entry does next; to answer is to end a get with the exit. */
  datatype Intent =
    | Resolve(entry: Entry, ignorePending: bool)
    | Await(deferred: nat)
    | Commit(entry: Entry)
    | Answer(exit: Result)

  datatype State = State(
    capacity: int,
    entries: map<Key, Entry>,
    recency: seq<Node>,
    lookups: map<nat, Lookup>,
    done: map<nat, Result>,
    intents: map<Fiber, Intent>,
    waiting: map<Fiber, nat>,
    resumed: map<Fiber, (nat, Result)>,
    // history: the key each deferred was made for, and the deferreds whose lookup ended without completing them
    keyOf: seq<Key>,
    abandoned: set<nat>,
    nodes: nat)

  function Init(capacity: int): State {
    State(capacity, map[], [], map[], map[], map[], map[], map[], [], {}, 0)
  }

  // ----- Pieces of steps

  function Names(nodes: seq<Node>): seq<Key> {
    seq(|nodes|, i requires 0 <= i < |nodes| => nodes[i].key)
  }

  function TrackAccess(s: State, node: Node): State {
    var touched := Touch(s.recency, node);
    var evicted := Evict(s.entries, Names(touched), s.capacity);
    s.(entries := evicted.entries, recency := touched[evicted.dropped..])
  }

  /** A fiber awaits a deferred: it resumes at once when that is complete. */
  function AwaitDeferred(s: State, w: Fiber, d: nat): State {
    if d in s.done then s.(resumed := s.resumed[w := (d, s.done[d])]) else s.(waiting := s.waiting[w := d])
  }

  /** Completes a deferred unless it is complete, and resumes everybody who waits on it. */
  function CompleteDeferred(s: State, d: nat, x: Result): State {
    if d in s.done then s
    else s.(
      done := s.done[d := x],
      waiting := map w | w in s.waiting && s.waiting[w] != d :: s.waiting[w],
      resumed := map w | w in s.resumed.Keys + s.waiting.Keys && (w in s.resumed || s.waiting[w] == d) ::
        if w in s.waiting && s.waiting[w] == d then (d, x) else s.resumed[w])
  }

  /** Stores an entry that shares a new deferred and starts the lookup for it. */
  function Launch(s: State, key: Key, entry: Entry): State {
    s.(entries := s.entries[key := entry], lookups := s.lookups[|s.keyOf| := Lookup(key, Starting)],
       keyOf := s.keyOf + [key])
  }

  function Advance(s: State, d: nat, phase: Phase): State
    requires d in s.lookups
  {
    s.(lookups := s.lookups[d := s.lookups[d].(phase := phase)])
  }

  function FreshNode(s: State, key: Key): Node {
    Node(key, s.nodes)
  }

  ghost predicate InterruptedOnly(c: Failing) {
    FailsIn(Leaves(c)) == [] && DefectsIn(Leaves(c)) == []
  }

  ghost predicate RaisesInterruptedOnly(x: Result) {
    x.Failure? && InterruptedOnly(x.cause)
  }

  // ----- Steps

  datatype Step =
    | GetMiss(key: Key)
    | ProbeMiss(key: Key)
    | BeginGet(fiber: Fiber, key: Key, ignorePending: bool)
    | RefreshMiss(key: Key)
    | BeginRefresh(fiber: Fiber, key: Key, now: int)
    | Proceed(fiber: Fiber, now: int)
    | Install(deferred: nat)
    | Finish(deferred: nat, exit: Result, expires: int)
    | CompleteLookup(deferred: nat)
    | Return(deferred: nat)
    | InterruptLookup(deferred: nat, cause: Failing)
    | HandlerCompletes(deferred: nat, interruptor: Unknown)
    | HandlerRemoves(deferred: nat)
    | InterruptFiber(fiber: Fiber)
    | Put(key: Key, exit: Result, expires: int)
    | Invalidate(key: Key)
    | InvalidateAll

  ghost predicate Idle(s: State, w: Fiber) {
    w !in s.intents && w !in s.waiting && w !in s.resumed
  }

  ghost predicate Enabled(s: State, step: Step) {
    match step
    case GetMiss(key) => key !in s.entries
    case ProbeMiss(key) => key !in s.entries
    case BeginGet(w, key, _) => Idle(s, w) && key in s.entries
    case RefreshMiss(key) => key !in s.entries
    case BeginRefresh(w, key, _) => Idle(s, w) && key in s.entries
    case Proceed(w, _) => w in s.intents
    case Install(d) => d in s.lookups && s.lookups[d].phase == Starting
    case Finish(d, _, _) => d in s.lookups && s.lookups[d].phase == Looking
    case CompleteLookup(d) => d in s.lookups && s.lookups[d].phase.Stored?
    case Return(d) => d in s.lookups && s.lookups[d].phase.Settled?
    case InterruptLookup(d, _) => d in s.lookups && s.lookups[d].phase != Interrupting && s.lookups[d].phase != Removing
    case HandlerCompletes(d, _) => d in s.lookups && s.lookups[d].phase == Interrupting
    case HandlerRemoves(d) => d in s.lookups && s.lookups[d].phase == Removing
    case InterruptFiber(w) => w in s.waiting || w in s.intents
    case Put(_, _, _) => true
    case Invalidate(_) => true
    case InvalidateAll => true
  }

  /** The lookup ends without completing its deferred: its handler is not installed yet, or does not
      run because the cause is not one of interruption only. */
  ghost predicate Abandons(s: State, step: Step) {
    && step.InterruptLookup? && step.deferred in s.lookups && step.deferred !in s.done
    && (s.lookups[step.deferred].phase == Starting || !InterruptedOnly(step.cause))
  }

  /** What a getter does with an entry once its access is tracked; awaiting the deferred is another step. */
  function Resolved(s: State, w: Fiber, entry: Entry, ignorePending: bool, now: int): State {
    match entry
    case Complete(node, exit, expires) =>
      if now > expires then s.(entries := s.entries - {node.key}) else s.(intents := s.intents[w := Answer(exit)])
    case Pending(_, d) => if ignorePending then s else s.(intents := s.intents[w := Await(d)])
    case Refreshing(d, _, exit, expires) =>
      if now <= expires then s.(intents := s.intents[w := Answer(exit)])
      else if ignorePending then s
      else s.(intents := s.intents[w := Await(d)])
  }

  function ProceedFrom(s: State, w: Fiber, intent: Intent, now: int): State {
    match intent
    case Await(d) => AwaitDeferred(s, w, d)
    case Resolve(entry, ignorePending) => Resolved(TrackAccess(s, entry.node), w, entry, ignorePending, now)
    case Commit(entry) =>
      if entry.Complete? && entry.node.key in s.entries && s.entries[entry.node.key] == entry then
        Launch(s, entry.node.key, Refreshing(|s.keyOf|, entry.node, entry.exit, entry.expires))
      else s
    case Answer(_) => s
  }

  function StartRefresh(s: State, w: Fiber, key: Key, entry: Entry, now: int): State {
    match entry
    case Complete(_, _, expires) =>
      if now > expires then s.(entries := s.entries - {key}) else s.(intents := s.intents[w := Commit(entry)])
    case Pending(_, d) => s.(intents := s.intents[w := Await(d)])
    case Refreshing(d, _, _, _) => s.(intents := s.intents[w := Await(d)])
  }

  ghost function Interrupted(s: State, d: nat, cause: Failing): State
    requires d in s.lookups
  {
    if s.lookups[d].phase != Starting && InterruptedOnly(cause) then Advance(s, d, Interrupting)
    else s.(lookups := s.lookups - {d}, abandoned := s.abandoned + if d in s.done then {} else {d})
  }

  ghost function After(s: State, step: Step): State
    requires Enabled(s, step)
  {
    match step
    case GetMiss(key) =>
      var node := FreshNode(s, key);
      TrackAccess(Launch(s, key, Pending(node, |s.keyOf|)).(nodes := s.nodes + 1), node)
    case ProbeMiss(key) => TrackAccess(s.(nodes := s.nodes + 1), FreshNode(s, key))
    case BeginGet(w, key, ignorePending) => s.(intents := s.intents[w := Resolve(s.entries[key], ignorePending)])
    case RefreshMiss(key) => Launch(s, key, Pending(FreshNode(s, key), |s.keyOf|)).(nodes := s.nodes + 1)
    case BeginRefresh(w, key, now) => StartRefresh(s, w, key, s.entries[key], now)
    case Proceed(w, now) => ProceedFrom(s.(intents := s.intents - {w}), w, s.intents[w], now)
    case Install(d) => Advance(s, d, Looking)
    case Finish(d, x, expires) =>
      var key := s.lookups[d].key;
      Advance(s, d, Stored(x)).(
        nodes := s.nodes + 1, entries := s.entries[key := Complete(FreshNode(s, key), x, expires)])
    case CompleteLookup(d) =>
      var x := s.lookups[d].phase.exit;
      CompleteDeferred(Advance(s, d, Settled(x)), d, x)
    case Return(d) =>
      if RaisesInterruptedOnly(s.lookups[d].phase.exit) then Advance(s, d, Interrupting)
      else s.(lookups := s.lookups - {d})
    case InterruptLookup(d, cause) => Interrupted(s, d, cause)
    case HandlerCompletes(d, id) => CompleteDeferred(Advance(s, d, Removing), d, Failure(Interrupt(id)))
    case HandlerRemoves(d) => s.(lookups := s.lookups - {d}, entries := s.entries - {s.lookups[d].key})
    case InterruptFiber(w) => s.(waiting := s.waiting - {w}, intents := s.intents - {w})
    case Put(key, x, expires) =>
      s.(entries := s.entries[key := Complete(FreshNode(s, key), x, expires)], nodes := s.nodes + 1)
    case Invalidate(key) => s.(entries := s.entries - {key})
    case InvalidateAll => s.(entries := map[])
  }

  // ----- The invariant

  /** The lookup of the deferred is in flight and will complete it. */
  ghost predicate Open(s: State, d: nat) {
    && d in s.lookups && d !in s.done
    && (match s.lookups[d].phase
        case Settled(_) => false
        case Removing => false
        case _ => true)
  }

  ghost predicate LookupsOk(lookups: map<nat, Lookup>, done: map<nat, Result>, abandoned: set<nat>, keyOf: seq<Key>) {
    && (forall d :: d in lookups ==> d < |keyOf| && lookups[d].key == keyOf[d])
    && (forall d :: d in lookups && (lookups[d].phase.Settled? || lookups[d].phase == Removing) ==> d in done)
    && (forall d :: d in lookups && d in done ==>
          lookups[d].phase.Settled? || lookups[d].phase == Removing || lookups[d].phase == Interrupting)
    && (forall d :: d in abandoned ==> d < |keyOf| && d !in lookups && d !in done)
    && (forall d :: d in done ==> d < |keyOf|)
    && (forall d: nat :: d < |keyOf| ==> d in done || d in abandoned || d in lookups)
  }

  /** The lookup of a shared entry is in flight and has not replaced the entry yet, or was abandoned. */
  ghost predicate Backed(lookups: map<nat, Lookup>, abandoned: set<nat>, d: nat) {
    d in abandoned || (d in lookups && !lookups[d].phase.Stored? && !lookups[d].phase.Settled?)
  }

  ghost predicate EntryOk(e: Entry, k: Key, lookups: map<nat, Lookup>, abandoned: set<nat>, keyOf: seq<Key>) {
    && e.node.key == k
    && (e.Shares() ==> e.deferred < |keyOf| && keyOf[e.deferred] == k && Backed(lookups, abandoned, e.deferred))
  }

  ghost predicate EntriesOk(entries: map<Key, Entry>, lookups: map<nat, Lookup>, abandoned: set<nat>, keyOf: seq<Key>) {
    forall k :: k in entries ==> EntryOk(entries[k], k, lookups, abandoned, keyOf)
  }

  ghost predicate IntentOk(intent: Intent, n: nat) {
    match intent
    case Resolve(e, _) => e.Shares() ==> e.deferred < n
    case Await(d) => d < n
    case Commit(e) => e.Complete?
    case Answer(_) => true
  }

  ghost predicate IntentsOk(intents: map<Fiber, Intent>, n: nat) {
    forall w :: w in intents ==> IntentOk(intents[w], n)
  }

  ghost predicate WaitingOk(waiting: map<Fiber, nat>, done: map<nat, Result>, n: nat) {
    forall w :: w in waiting ==> waiting[w] < n && waiting[w] !in done
  }

  ghost predicate ResumedOk(resumed: map<Fiber, (nat, Result)>, done: map<nat, Result>) {
    forall w :: w in resumed ==> resumed[w].0 in done && done[resumed[w].0] == resumed[w].1
  }

  ghost predicate Exclusive(intents: map<Fiber, Intent>, waiting: map<Fiber, nat>, resumed: map<Fiber, (nat, Result)>) {
    && (forall w :: w in intents ==> w !in waiting && w !in resumed)
    && (forall w :: w in waiting ==> w !in resumed)
  }

  ghost predicate Inv(s: State) {
    && LookupsOk(s.lookups, s.done, s.abandoned, s.keyOf)
    && EntriesOk(s.entries, s.lookups, s.abandoned, s.keyOf)
    && IntentsOk(s.intents, |s.keyOf|)
    && WaitingOk(s.waiting, s.done, |s.keyOf|)
    && ResumedOk(s.resumed, s.done)
    && Exclusive(s.intents, s.waiting, s.resumed)
  }

  lemma {:induction false} InitInv(capacity: int)
    ensures Inv(Init(capacity))
  {}

  // ----- Preservation

  lemma {:induction false} FewerEntries(s: State, t: State)
    requires Inv(s) && t == s.(entries := t.entries, recency := t.recency, nodes := t.nodes)
    requires forall k :: k in t.entries ==> k in s.entries && t.entries[k] == s.entries[k]
    ensures Inv(t)
  {
    assert EntriesOk(t.entries, s.lookups, s.abandoned, s.keyOf);
  }

  lemma {:induction false} TrackAccessDrops(s: State, node: Node)
    ensures var t := TrackAccess(s, node);
      && t == s.(entries := t.entries, recency := t.recency)
      && forall k :: k in t.entries ==> k in s.entries && t.entries[k] == s.entries[k]
  {
    EvictResult(s.entries, Names(Touch(s.recency, node)), s.capacity);
  }

  lemma {:induction false} TrackAccessInv(s: State, node: Node)
    requires Inv(s)
    ensures Inv(TrackAccess(s, node))
  {
    TrackAccessDrops(s, node);
    FewerEntries(s, TrackAccess(s, node));
  }

  lemma {:induction false} LaunchInv(s: State, key: Key, e: Entry)
    requires Inv(s) && e.node.key == key && e.Shares() && e.deferred == |s.keyOf|
    ensures Inv(Launch(s, key, e))
  {
    var t := Launch(s, key, e);
    assert LookupsOk(t.lookups, t.done, t.abandoned, t.keyOf);
    forall k | k in t.entries ensures EntryOk(t.entries[k], k, t.lookups, t.abandoned, t.keyOf) {
      if k != key {
        assert EntryOk(s.entries[k], k, s.lookups, s.abandoned, s.keyOf);
        LaunchBacks(s, key, s.entries[k]);
      }
    }
    forall w | w in t.intents ensures IntentOk(t.intents[w], |t.keyOf|) {
      assert IntentOk(s.intents[w], |s.keyOf|);
    }
  }

  lemma {:induction false} LaunchBacks(s: State, key: Key, e: Entry)
    requires LookupsOk(s.lookups, s.done, s.abandoned, s.keyOf)
    requires e.Shares() ==> e.deferred < |s.keyOf| && Backed(s.lookups, s.abandoned, e.deferred)
    ensures e.Shares() ==>
      (Backed(s.lookups[|s.keyOf| := Lookup(key, Starting)], s.abandoned, e.deferred) &&
       (s.keyOf + [key])[e.deferred] == s.keyOf[e.deferred])
  {}

  lemma {:induction false} AwaitInv(s: State, w: Fiber, d: nat)
    requires Inv(s) && Idle(s, w) && d < |s.keyOf|
    ensures Inv(AwaitDeferred(s, w, d))
  {
    if d in s.done {
      assert ResumedOk(s.resumed[w := (d, s.done[d])], s.done);
    } else {
      assert WaitingOk(s.waiting[w := d], s.done, |s.keyOf|);
    }
  }

  /** Completing an open deferred wakes exactly its waiters. */
  lemma {:induction false} CompleteInv(s: State, d: nat, x: Result)
    requires d !in s.done && d < |s.keyOf|
    requires LookupsOk(s.lookups, s.done[d := x], s.abandoned, s.keyOf)
    requires EntriesOk(s.entries, s.lookups, s.abandoned, s.keyOf) && IntentsOk(s.intents, |s.keyOf|)
    requires WaitingOk(s.waiting, s.done, |s.keyOf|) && ResumedOk(s.resumed, s.done)
    requires Exclusive(s.intents, s.waiting, s.resumed)
    ensures Inv(CompleteDeferred(s, d, x))
  {
    var t := CompleteDeferred(s, d, x);
    assert WaitingOk(t.waiting, t.done, |t.keyOf|);
    assert ResumedOk(t.resumed, t.done);
    assert Exclusive(t.intents, t.waiting, t.resumed);
  }

  /** A lookup may move on without disturbing entries unless it leaves a phase that backs them. */
  lemma {:induction false} StillBacked(entries: map<Key, Entry>, keyOf: seq<Key>, lookups: map<nat, Lookup>,
      abandoned: set<nat>, lookups': map<nat, Lookup>, abandoned': set<nat>)
    requires EntriesOk(entries, lookups, abandoned, keyOf)
    requires forall d :: Backed(lookups, abandoned, d) ==> Backed(lookups', abandoned', d)
    ensures EntriesOk(entries, lookups', abandoned', keyOf)
  {
    forall k | k in entries ensures EntryOk(entries[k], k, lookups', abandoned', keyOf) {
      assert EntryOk(entries[k], k, lookups, abandoned, keyOf);
    }
  }

  lemma {:induction false} AdvanceInv(s: State, d: nat, phase: Phase)
    requires Inv(s) && d in s.lookups && !phase.Stored? && !phase.Settled? && phase != Removing
    requires d in s.done ==> phase == Interrupting
    ensures Inv(Advance(s, d, phase))
  {
    var t := Advance(s, d, phase);
    assert LookupsOk(t.lookups, t.done, t.abandoned, t.keyOf);
    StillBacked(s.entries, s.keyOf, s.lookups, s.abandoned, t.lookups, t.abandoned);
  }

  lemma {:induction false} ReturnInv(s: State, step: Step)
    requires Inv(s) && Enabled(s, step) && step.Return?
    ensures Inv(After(s, step))
  {
    var d := step.deferred;
    if RaisesInterruptedOnly(s.lookups[d].phase.exit) {
      AdvanceInv(s, d, Interrupting);
    } else {
      var t := s.(lookups := s.lookups - {d});
      assert LookupsOk(t.lookups, t.done, t.abandoned, t.keyOf);
      StillBacked(s.entries, s.keyOf, s.lookups, s.abandoned, t.lookups, t.abandoned);
    }
  }

  lemma {:induction false} AbandonInv(s: State, d: nat, abandoned: set<nat>)
    requires Inv(s) && d in s.lookups && s.lookups[d].phase != Interrupting && s.lookups[d].phase != Removing
    requires abandoned == s.abandoned + if d in s.done then {} else {d}
    ensures Inv(s.(lookups := s.lookups - {d}, abandoned := abandoned))
  {
    assert LookupsOk(s.lookups - {d}, s.done, abandoned, s.keyOf);
    StillBacked(s.entries, s.keyOf, s.lookups, s.abandoned, s.lookups - {d}, abandoned);
  }

  lemma {:induction false} InterruptInv(s: State, step: Step)
    requires Inv(s) && Enabled(s, step) && step.InterruptLookup?
    ensures Inv(After(s, step))
  {
    var d := step.deferred;
    if s.lookups[d].phase != Starting && InterruptedOnly(step.cause) {
      AdvanceInv(s, d, Interrupting);
    } else {
      AbandonInv(s, d, s.abandoned + if d in s.done then {} else {d});
    }
  }

  lemma {:induction false} FinishInv(s: State, step: Step)
    requires Inv(s) && Enabled(s, step) && step.Finish?
    ensures Inv(After(s, step))
  {
    var t, d := After(s, step), step.deferred;
    assert LookupsOk(t.lookups, t.done, t.abandoned, t.keyOf);
    forall k | k in t.entries ensures EntryOk(t.entries[k], k, t.lookups, t.abandoned, t.keyOf) {
      if k != s.lookups[d].key { assert EntryOk(s.entries[k], k, s.lookups, s.abandoned, s.keyOf); }
    }
  }

  lemma {:induction false} CompleteLookupInv(s: State, step: Step)
    requires Inv(s) && Enabled(s, step) && step.CompleteLookup?
    ensures Inv(After(s, step))
  {
    var d, x := step.deferred, s.lookups[step.deferred].phase.exit;
    var t := Advance(s, d, Settled(x));
    assert LookupsOk(t.lookups, t.done[d := x], t.abandoned, t.keyOf);
    StillBacked(s.entries, s.keyOf, s.lookups, s.abandoned, t.lookups, t.abandoned);
    CompleteInv(t, d, x);
  }

  lemma {:induction false} HandlerCompletesInv(s: State, step: Step)
    requires Inv(s) && Enabled(s, step) && step.HandlerCompletes?
    ensures Inv(After(s, step))
  {
    var d, x := step.deferred, Failure(Interrupt(step.interruptor));
    var t := Advance(s, d, Removing);
    StillBacked(s.entries, s.keyOf, s.lookups, s.abandoned, t.lookups, t.abandoned);
    if d in s.done {
      assert LookupsOk(t.lookups, t.done, t.abandoned, t.keyOf);
    } else {
      assert LookupsOk(t.lookups, t.done[d := x], t.abandoned, t.keyOf);
      CompleteInv(t, d, x);
    }
  }

  lemma {:induction false} HandlerRemovesInv(s: State, step: Step)
    requires Inv(s) && Enabled(s, step) && step.HandlerRemoves?
    ensures Inv(After(s, step))
  {
    var t, d := After(s, step), step.deferred;
    assert LookupsOk(t.lookups, t.done, t.abandoned, t.keyOf);
    forall k | k in t.entries ensures EntryOk(t.entries[k], k, t.lookups, t.abandoned, t.keyOf) {
      assert EntryOk(s.entries[k], k, s.lookups, s.abandoned, s.keyOf);
    }
  }

  lemma {:induction false} ResolvedInv(s: State, w: Fiber, e: Entry, ignorePending: bool, now: int)
    requires Inv(s) && Idle(s, w) && (e.Shares() ==> e.deferred < |s.keyOf|)
    ensures Inv(Resolved(s, w, e, ignorePending, now))
  {
    if e.Shares() { assert IntentsOk(s.intents[w := Await(e.deferred)], |s.keyOf|); }
    if !e.Pending? { assert IntentsOk(s.intents[w := Answer(e.exit)], |s.keyOf|); }
    FewerEntries(s, s.(entries := s.entries - {e.node.key}));
  }

  lemma {:induction false} ProceedInv(s: State, step: Step)
    requires Inv(s) && Enabled(s, step) && step.Proceed?
    ensures Inv(After(s, step))
  {
    var w := step.fiber;
    var r := s.(intents := s.intents - {w});
    assert IntentOk(s.intents[w], |s.keyOf|);
    match s.intents[w]
    case Await(d) => AwaitInv(r, w, d);
    case Resolve(e, ignorePending) =>
      TrackAccessInv(r, e.node);
      TrackAccessDrops(r, e.node);
      ResolvedInv(TrackAccess(r, e.node), w, e, ignorePending, step.now);
    case Answer(_) =>
    case Commit(e) =>
      if e.node.key in r.entries && r.entries[e.node.key] == e {
        LaunchInv(r, e.node.key, Refreshing(|r.keyOf|, e.node, e.exit, e.expires));
      }
  }

  lemma {:induction false} PutInv(s: State, step: Step)
    requires Inv(s) && Enabled(s, step) && step.Put?
    ensures Inv(After(s, step))
  {
    var t := After(s, step);
    assert EntriesOk(t.entries, s.lookups, s.abandoned, s.keyOf);
  }

  lemma {:induction false} BeginGetInv(s: State, step: Step)
    requires Inv(s) && Enabled(s, step) && step.BeginGet?
    ensures Inv(After(s, step))
  {
    var t := After(s, step);
    assert EntryOk(s.entries[step.key], step.key, s.lookups, s.abandoned, s.keyOf);
    assert IntentsOk(t.intents, |t.keyOf|);
  }

  lemma {:induction false} BeginRefreshInv(s: State, step: Step)
    requires Inv(s) && Enabled(s, step) && step.BeginRefresh?
    ensures Inv(After(s, step))
  {
    var t, e := After(s, step), s.entries[step.key];
    assert EntryOk(e, step.key, s.lookups, s.abandoned, s.keyOf);
    if e.Complete? && step.now > e.expires {
      FewerEntries(s, t);
    } else {
      assert IntentsOk(t.intents, |t.keyOf|);
    }
  }

  lemma {:induction false} MissInv(s: State, step: Step)
    requires Inv(s) && Enabled(s, step) && (step.GetMiss? || step.RefreshMiss?)
    ensures Inv(After(s, step))
  {
    var node := FreshNode(s, step.key);
    var t := Launch(s, step.key, Pending(node, |s.keyOf|));
    LaunchInv(s, step.key, Pending(node, |s.keyOf|));
    FewerEntries(t, t.(nodes := s.nodes + 1));
    TrackAccessInv(t.(nodes := s.nodes + 1), node);
  }

  lemma {:induction false} DropInv(s: State, step: Step)
    requires Inv(s) && Enabled(s, step)
    requires step.ProbeMiss? || step.Invalidate? || step.InvalidateAll? || step.InterruptFiber?
    ensures Inv(After(s, step))
  {
    if step.ProbeMiss? {
      FewerEntries(s, s.(nodes := s.nodes + 1));
      TrackAccessInv(s.(nodes := s.nodes + 1), FreshNode(s, step.key));
    } else if !step.InterruptFiber? {
      FewerEntries(s, After(s, step));
    }
  }

  /** Every step keeps the invariant. */
  lemma {:induction false} StepInv(s: State, step: Step)
    requires Inv(s) && Enabled(s, step)
    ensures Inv(After(s, step))
  {
    match step
    case GetMiss(_) => MissInv(s, step);
    case ProbeMiss(_) => DropInv(s, step);
    case BeginGet(_, _, _) => BeginGetInv(s, step);
    case RefreshMiss(_) => MissInv(s, step);
    case BeginRefresh(_, _, _) => BeginRefreshInv(s, step);
    case Proceed(_, _) => ProceedInv(s, step);
    case Install(d) => AdvanceInv(s, d, Looking);
    case Finish(_, _, _) => FinishInv(s, step);
    case CompleteLookup(_) => CompleteLookupInv(s, step);
    case Return(_) => ReturnInv(s, step);
    case InterruptLookup(_, _) => InterruptInv(s, step);
    case HandlerCompletes(_, _) => HandlerCompletesInv(s, step);
    case HandlerRemoves(_) => HandlerRemovesInv(s, step);
    case InterruptFiber(_) => DropInv(s, step);
    case Put(_, _, _) => PutInv(s, step);
    case Invalidate(_) => DropInv(s, step);
    case InvalidateAll => DropInv(s, step);
  }
}
