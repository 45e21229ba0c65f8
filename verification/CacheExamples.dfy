/** Runs of the cache that do what one would not expect of it. */
module CacheExamples {
  import opened Options
  import opened Core
  import opened Recency
  import opened CacheProtocol
  import opened CacheRuns
  import opened CacheSize
  import opened CacheSharing

  // ----- A key is looked up

  /** What the map and the recency list hold; the rest of the state does not matter here. */
  function Holding(entries: map<Key, Entry>, recency: seq<Node>, lookups: map<nat, Lookup>, keyOf: seq<Key>,
      nodes: nat): State {
    State(1, entries, recency, lookups, map[], map[], map[], map[], keyOf, {}, nodes)
  }

  lemma {:induction false} TrackFits(s: State, node: Node)
    requires |s.entries| <= s.capacity
    ensures TrackAccess(s, node) == s.(recency := Touch(s.recency, node))
  {
    assert Evict(s.entries, Names(Touch(s.recency, node)), s.capacity) == Eviction(s.entries, 0);
    assert Touch(s.recency, node)[0..] == Touch(s.recency, node);
  }

  function Missed(a: Key): State {
    Holding(map[a := Pending(Node(a, 0), 0)], [Node(a, 0)], map[0 := Lookup(a, Starting)], [a], 1)
  }

  lemma {:induction false} OneKey<V>(a: Key, v: V)
    ensures |map[a := v]| == 1
  {
    assert map[a := v].Keys == {a};
  }

  lemma {:induction false} FirstMiss(a: Key)
    ensures Enabled(Init(1), GetMiss(a)) && After(Init(1), GetMiss(a)) == Missed(a)
  {
    var s := Launch(Init(1), a, Pending(Node(a, 0), 0)).(nodes := 1);
    OneKey(a, Pending(Node(a, 0), 0));
    assert s.entries == map[a := Pending(Node(a, 0), 0)];
    TrackFits(s, Node(a, 0));
    assert Touch([], Node(a, 0)) == [Node(a, 0)];
  }

  function Installed(a: Key): State {
    Missed(a).(lookups := map[0 := Lookup(a, Looking)])
  }

  lemma {:induction false} FirstInstall(a: Key)
    ensures Enabled(Missed(a), Install(0)) && After(Missed(a), Install(0)) == Installed(a)
  {}

  // ----- Beyond the capacity

  lemma {:induction false} FullCache(s: State, a: Key, e: Entry)
    requires s.capacity == 1 && s.entries == map[a := e]
    ensures Within(s) && Full(s)
  {
    OneKey(a, e);
  }

  /** A value that is set, or a refresh of a key that is not mapped, exceeds the capacity of a full cache. */
  lemma {:induction false} StoringExceedsCapacity(a: Key, b: Key, x: Result, expires: int)
    requires a != b
    ensures After(Init(1), GetMiss(a)) == Missed(a)
    ensures !Within(After(Missed(a), Put(b, x, expires))) && !Within(After(Missed(a), RefreshMiss(b)))
  {
    FirstMiss(a);
    FullCache(Missed(a), a, Pending(Node(a, 0), 0));
    OverflowsIff(Missed(a), Put(b, x, expires));
    OverflowsIff(Missed(a), RefreshMiss(b));
  }

  /** Two values that are set exceed the capacity of an empty cache for one. */
  lemma {:induction false} SettingTwiceExceedsCapacity(a: Key, b: Key, x: Result, y: Result, expires: int)
    requires a != b
    ensures !Within(After(After(Init(1), Put(a, x, expires)), Put(b, y, expires)))
  {
    var s := After(Init(1), Put(a, x, expires));
    assert s.entries == map[a := Complete(Node(a, 0), x, expires)];
    FullCache(s, a, Complete(Node(a, 0), x, expires));
    OverflowsIff(s, Put(b, y, expires));
  }

  function Displaced(a: Key, b: Key): State {
    Holding(map[b := Pending(Node(b, 1), 1)], [Node(b, 1)],
            map[0 := Lookup(a, Looking), 1 := Lookup(b, Starting)], [a, b], 2)
  }

  lemma {:induction false} EvictFirst<V>(a: Key, b: Key, v: V, w: V)
    requires a != b
    ensures Evict(map[a := v, b := w], [a, b], 1) == Eviction(map[b := w], 1)
  {
    var m := map[a := v, b := w];
    assert m.Keys == {a, b};
    assert m - {a} == map[b := w];
    OneKey(b, w);
    assert Evict(map[b := w], [b], 1) == Eviction(map[b := w], 0);
  }

  lemma {:induction false} SecondMiss(a: Key, b: Key)
    requires a != b
    ensures Enabled(Installed(a), GetMiss(b)) && After(Installed(a), GetMiss(b)) == Displaced(a, b)
  {
    var u, v := Pending(Node(a, 0), 0), Pending(Node(b, 1), 1);
    var s := Launch(Installed(a), b, v).(nodes := 2);
    assert s.entries == map[a := u, b := v];
    var touched := [Node(a, 0), Node(b, 1)];
    WithoutAbsent([Node(a, 0)], Node(b, 1));
    assert Touch([Node(a, 0)], Node(b, 1)) == touched;
    assert Names(touched) == [a, b];
    EvictFirst(a, b, u, v);
    assert touched[1..] == [Node(b, 1)];
  }

  /** A lookup that finishes after its entry was evicted exceeds the capacity of a full cache. */
  lemma {:induction false} LateFinishExceedsCapacity(a: Key, b: Key, x: Result, expires: int) returns (t: State)
    requires a != b
    ensures Run(Init(1), [GetMiss(a)] + ([Install(0)] + ([GetMiss(b)] + [Finish(0, x, expires)])), t)
    ensures !Within(t)
  {
    FirstMiss(a);
    FirstInstall(a);
    SecondMiss(a, b);
    t := After(Displaced(a, b), Finish(0, x, expires));
    FullCache(Displaced(a, b), b, Pending(Node(b, 1), 1));
    OverflowsIff(Displaced(a, b), Finish(0, x, expires));
    RunOne(Displaced(a, b), Finish(0, x, expires));
    RunMore(Installed(a), GetMiss(b), [Finish(0, x, expires)], t);
    RunMore(Missed(a), Install(0), [GetMiss(b)] + [Finish(0, x, expires)], t);
    RunMore(Init(1), GetMiss(a), [Install(0)] + ([GetMiss(b)] + [Finish(0, x, expires)]), t);
  }

  // ----- The entry accessed last is evicted

  function Finished(a: Key, x: Result, expires: int): State {
    Holding(map[a := Complete(Node(a, 1), x, expires)], [Node(a, 0)], map[0 := Lookup(a, Stored(x))], [a], 2)
  }

  function Probed(a: Key, b: Key, x: Result, expires: int): State {
    Finished(a, x, expires).(recency := [Node(a, 0), Node(b, 2)], nodes := 3)
  }

  function BothStored(a: Key, b: Key, x: Result, y: Result, expires: int): State {
    Probed(a, b, x, expires).(
      entries := map[a := Complete(Node(a, 1), x, expires), b := Complete(Node(b, 3), y, expires)], nodes := 4)
  }

  function Reading(a: Key, b: Key, x: Result, y: Result, expires: int, w: Fiber): State {
    BothStored(a, b, x, y, expires).(intents := map[w := Resolve(Complete(Node(a, 1), x, expires), false)])
  }

  lemma {:induction false} FirstFinish(a: Key, x: Result, expires: int)
    ensures Enabled(Installed(a), Finish(0, x, expires))
    ensures After(Installed(a), Finish(0, x, expires)) == Finished(a, x, expires)
  {}

  lemma {:induction false} Probe(a: Key, b: Key, x: Result, expires: int)
    requires a != b
    ensures Enabled(Finished(a, x, expires), ProbeMiss(b))
    ensures After(Finished(a, x, expires), ProbeMiss(b)) == Probed(a, b, x, expires)
  {
    var s := Finished(a, x, expires).(nodes := 3);
    OneKey(a, Complete(Node(a, 1), x, expires));
    TrackFits(s, Node(b, 2));
    WithoutAbsent([Node(a, 0)], Node(b, 2));
    assert Touch([Node(a, 0)], Node(b, 2)) == [Node(a, 0), Node(b, 2)];
  }

  lemma {:induction false} Store(a: Key, b: Key, x: Result, y: Result, expires: int)
    requires a != b
    ensures Enabled(Probed(a, b, x, expires), Put(b, y, expires))
    ensures After(Probed(a, b, x, expires), Put(b, y, expires)) == BothStored(a, b, x, y, expires)
  {}

  lemma {:induction false} Read(a: Key, b: Key, x: Result, y: Result, expires: int, w: Fiber)
    requires a != b
    ensures Enabled(BothStored(a, b, x, y, expires), BeginGet(w, a, false))
    ensures After(BothStored(a, b, x, y, expires), BeginGet(w, a, false)) == Reading(a, b, x, y, expires, w)
  {}

  lemma {:induction false} Access(a: Key, b: Key, x: Result, y: Result, expires: int, w: Fiber)
    requires a != b
    ensures Enabled(Reading(a, b, x, y, expires, w), Proceed(w, expires))
    ensures After(Reading(a, b, x, y, expires, w), Proceed(w, expires)).entries ==
      map[b := Complete(Node(b, 3), y, expires)]
  {
    var s := Reading(a, b, x, y, expires, w);
    var r := s.(intents := s.intents - {w});
    var touched := [Node(a, 0), Node(b, 2), Node(a, 1)];
    WithoutAbsent([Node(a, 0), Node(b, 2)], Node(a, 1));
    assert Touch(r.recency, Node(a, 1)) == touched;
    assert Names(touched) == [a, b, a];
    EvictStale(a, b, Complete(Node(a, 1), x, expires), Complete(Node(b, 3), y, expires));
    assert TrackAccess(r, Node(a, 1)).entries == map[b := Complete(Node(b, 3), y, expires)];
  }

  lemma {:induction false} EvictStale<V>(a: Key, b: Key, v: V, w: V)
    requires a != b
    ensures Evict(map[a := v, b := w], [a, b, a], 1).entries == map[b := w]
  {
    var m := map[a := v, b := w];
    assert m.Keys == {a, b};
    assert m - {a} == map[b := w];
    OneKey(b, w);
  }

  ghost function StaleSteps(a: Key, b: Key, x: Result, y: Result, expires: int, w: Fiber): seq<Step> {
    [GetMiss(a)] + ([Install(0)] + ([Finish(0, x, expires)] + ([ProbeMiss(b)] + ([Put(b, y, expires)] +
      ([BeginGet(w, a, false)] + [Proceed(w, expires)])))))
  }

  /** A run in which a getter hits a key, and its access evicts that key in favour of one that was set
      earlier: the finished lookup has left a second, older record of the key behind. */
  lemma {:induction false} StaleRecordEvictsLatest(a: Key, b: Key, x: Result, y: Result, expires: int, w: Fiber)
      returns (t: State)
    requires a != b
    ensures Run(Init(1), StaleSteps(a, b, x, y, expires, w), t)
    ensures t.entries == map[b := Complete(Node(b, 3), y, expires)]
  {
    FirstMiss(a);
    FirstInstall(a);
    FirstFinish(a, x, expires);
    Probe(a, b, x, expires);
    Store(a, b, x, y, expires);
    Read(a, b, x, y, expires, w);
    Access(a, b, x, y, expires, w);
    var s := Reading(a, b, x, y, expires, w);
    t := After(s, Proceed(w, expires));
    var last := [BeginGet(w, a, false)] + [Proceed(w, expires)];
    RunOne(s, Proceed(w, expires));
    RunMore(BothStored(a, b, x, y, expires), BeginGet(w, a, false), [Proceed(w, expires)], t);
    RunMore(Probed(a, b, x, expires), Put(b, y, expires), last, t);
    RunMore(Finished(a, x, expires), ProbeMiss(b), [Put(b, y, expires)] + last, t);
    RunMore(Installed(a), Finish(0, x, expires), [ProbeMiss(b)] + ([Put(b, y, expires)] + last), t);
    RunMore(Missed(a), Install(0), [Finish(0, x, expires)] + ([ProbeMiss(b)] + ([Put(b, y, expires)] + last)), t);
    RunMore(Init(1), GetMiss(a),
            [Install(0)] + ([Finish(0, x, expires)] + ([ProbeMiss(b)] + ([Put(b, y, expires)] + last))), t);
  }

  // ----- A getter is stranded

  function Waiting(s: State, w: Fiber): State {
    s.(waiting := map[w := 0])
  }

  function ToResolve(s: State, w: Fiber, e: Entry): State {
    s.(intents := map[w := Resolve(e, false)])
  }

  function ToAwait(s: State, w: Fiber): State {
    s.(intents := map[w := Await(0)])
  }

  ghost predicate JustMissed(s: State, a: Key) {
    s == Missed(a) || s == Installed(a)
  }

  lemma {:induction false} GetterReads(s: State, a: Key, w: Fiber)
    requires JustMissed(s, a)
    ensures Enabled(s, BeginGet(w, a, false))
    ensures After(s, BeginGet(w, a, false)) == ToResolve(s, w, Pending(Node(a, 0), 0))
  {}

  lemma {:induction false} AccessChangesNothing(s: State, a: Key)
    requires JustMissed(s, a)
    ensures TrackAccess(s, Node(a, 0)) == s
  {
    OneKey(a, Pending(Node(a, 0), 0));
    TrackFits(s, Node(a, 0));
    assert [Node(a, 0)][1..] == [] && Without([], Node(a, 0)) == [];
    assert Touch([Node(a, 0)], Node(a, 0)) == [Node(a, 0)];
  }

  lemma {:induction false} GetterTracks(s: State, a: Key, w: Fiber)
    requires JustMissed(s, a)
    ensures var r := ToResolve(s, w, Pending(Node(a, 0), 0));
      Enabled(r, Proceed(w, 0)) && After(r, Proceed(w, 0)) == ToAwait(s, w)
  {
    var r := ToResolve(s, w, Pending(Node(a, 0), 0));
    assert r.(intents := r.intents - {w}) == s;
    AccessChangesNothing(s, a);
    assert ProceedFrom(s, w, Resolve(Pending(Node(a, 0), 0), false), 0) == ToAwait(s, w);
  }

  lemma {:induction false} GetterAwaits(s: State, a: Key, w: Fiber)
    requires JustMissed(s, a)
    ensures Enabled(ToAwait(s, w), Proceed(w, 0)) && After(ToAwait(s, w), Proceed(w, 0)) == Waiting(s, w)
  {
    assert ToAwait(s, w).intents - {w} == map[];
  }

  ghost predicate Leads(s: State, step: Step, t: State) {
    Enabled(s, step) && t == After(s, step)
  }

  lemma {:induction false} Prepend(s: State, step: Step, next: State, rest: seq<Step>, t: State)
      returns (steps: seq<Step>)
    requires Leads(s, step, next) && Run(next, rest, t)
    ensures steps == [step] + rest && Run(s, steps, t)
  {
    RunMore(s, step, rest, t);
    steps := [step] + rest;
  }

  /** A getter that comes while the lookup runs waits for it; `rest` is what happens then. */
  lemma {:induction false} GetterWaits(s: State, a: Key, w: Fiber, rest: seq<Step>, t: State) returns (steps: seq<Step>)
    requires JustMissed(s, a) && Run(Waiting(s, w), rest, t)
    ensures Run(s, steps, t)
  {
    GetterReads(s, a, w);
    GetterTracks(s, a, w);
    GetterAwaits(s, a, w);
    var pending := ToResolve(s, w, Pending(Node(a, 0), 0));
    steps := Prepend(ToAwait(s, w), Proceed(w, 0), Waiting(s, w), rest, t);
    steps := Prepend(pending, Proceed(w, 0), ToAwait(s, w), steps, t);
    steps := Prepend(s, BeginGet(w, a, false), pending, steps, t);
  }

  /** While a getter waits, the lookup is interrupted before its handler is installed. */
  lemma {:induction false} EarlyInterruptStrands(a: Key, w: Fiber, cause: Failing) returns (steps: seq<Step>, t: State)
    ensures Run(Init(1), steps, t) && w in t.waiting && t.waiting[w] in t.abandoned
  {
    var s := Waiting(Missed(a), w);
    t := After(s, InterruptLookup(0, cause));
    RunOne(s, InterruptLookup(0, cause));
    steps := GetterWaits(Missed(a), a, w, [InterruptLookup(0, cause)], t);
    FirstMiss(a);
    steps := Prepend(Init(1), GetMiss(a), Missed(a), steps, t);
  }

  /** While a getter waits, the running lookup fails for a cause that is not one of interruption only. */
  lemma {:induction false} DefectStrands(a: Key, w: Fiber, cause: Failing) returns (steps: seq<Step>, t: State)
    requires !InterruptedOnly(cause)
    ensures Run(Init(1), steps, t) && w in t.waiting && t.waiting[w] in t.abandoned
  {
    var s := Waiting(Installed(a), w);
    t := After(s, InterruptLookup(0, cause));
    RunOne(s, InterruptLookup(0, cause));
    steps := GetterWaits(Installed(a), a, w, [InterruptLookup(0, cause)], t);
    FirstInstall(a);
    steps := Prepend(Missed(a), Install(0), Installed(a), steps, t);
    FirstMiss(a);
    steps := Prepend(Init(1), GetMiss(a), Missed(a), steps, t);
  }

  // ----- A key is looked up twice

  /** The first entry that a lookup of the key stores, as getters read it. */
  function Stale(a: Key, x: Result, expires: int): Entry {
    Complete(Node(a, 1), x, expires)
  }

  lemma {:induction false} HitStays(s: State, e: Entry, w: Fiber)
    requires Idle(s, w) && e.node.key in s.entries && s.entries[e.node.key] == e
    ensures Enabled(s, BeginGet(w, e.node.key, false))
    ensures After(s, BeginGet(w, e.node.key, false)) == s.(intents := s.intents[w := Resolve(e, false)])
  {}

  function WithoutExpired(s: State, e: Entry, w: Fiber): State {
    s.(intents := s.intents - {w}, recency := Touch(s.recency, e.node), entries := s.entries - {e.node.key})
  }

  /** A getter finds that the entry it has read is expired, and removes whatever is mapped by now. */
  lemma {:induction false} ExpiredRemoves(s: State, e: Entry, w: Fiber, now: int)
    requires w in s.intents && s.intents[w] == Resolve(e, false) && Expired(e, now) && |s.entries| <= s.capacity
    ensures Leads(s, Proceed(w, now), WithoutExpired(s, e, w))
  {
    var r := s.(intents := s.intents - {w});
    ProceedResolves(s, e, w, now);
    TrackFits(r, e.node);
    ResolvedExpired(r.(recency := Touch(s.recency, e.node)), e, w, now);
  }

  lemma {:induction false} ProceedResolves(s: State, e: Entry, w: Fiber, now: int)
    requires w in s.intents && s.intents[w] == Resolve(e, false)
    ensures Leads(s, Proceed(w, now), Resolved(TrackAccess(s.(intents := s.intents - {w}), e.node), w, e, false, now))
  {}

  lemma {:induction false} ResolvedExpired(s: State, e: Entry, w: Fiber, now: int)
    requires Expired(e, now)
    ensures Resolved(s, w, e, false, now) == s.(entries := s.entries - {e.node.key})
  {}

  function Launched(s: State, a: Key): State {
    Launch(s, a, Pending(Node(a, s.nodes), |s.keyOf|)).(nodes := s.nodes + 1)
  }

  lemma {:induction false} MissLaunches(s: State, a: Key)
    requires s.entries == map[] && s.capacity == 1
    ensures Enabled(s, GetMiss(a))
    ensures After(s, GetMiss(a)) == Launched(s, a).(recency := Touch(s.recency, Node(a, s.nodes)))
  {
    var r := Launched(s, a);
    OneKey(a, Pending(Node(a, s.nodes), |s.keyOf|));
    assert r.entries == map[a := Pending(Node(a, s.nodes), |s.keyOf|)];
    TrackFits(r, Node(a, s.nodes));
  }

  /** Both getters have read the entry before it expired. */
  function BothRead(a: Key, x: Result, expires: int, w: Fiber, v: Fiber): State {
    Finished(a, x, expires).(
      intents := map[w := Resolve(Stale(a, x, expires), false)][v := Resolve(Stale(a, x, expires), false)])
  }

  /** A step of a getter, or of the lookup that it runs. */
  ghost predicate OfGetters(step: Step) {
    step.GetMiss? || step.BeginGet? || step.Proceed? || step.Install? || step.Finish?
  }

  ghost predicate OnlyGetters(steps: seq<Step>) {
    forall i :: 0 <= i < |steps| ==> OfGetters(steps[i])
  }

  lemma {:induction false} GettersPrepend(s: State, step: Step, next: State, rest: seq<Step>, t: State)
      returns (steps: seq<Step>)
    requires Leads(s, step, next) && Run(next, rest, t) && OfGetters(step) && OnlyGetters(rest)
    ensures Run(s, steps, t) && OnlyGetters(steps)
  {
    steps := Prepend(s, step, next, rest, t);
  }

  lemma {:induction false} GettersRead(a: Key, x: Result, expires: int, w: Fiber, v: Fiber, rest: seq<Step>, t: State)
      returns (steps: seq<Step>)
    requires w != v && Run(BothRead(a, x, expires, w, v), rest, t) && OnlyGetters(rest)
    ensures Run(Finished(a, x, expires), steps, t) && OnlyGetters(steps)
  {
    var s, e := Finished(a, x, expires), Stale(a, x, expires);
    var r := s.(intents := map[w := Resolve(e, false)]);
    HitStays(s, e, w);
    HitStays(r, e, v);
    steps := Prepend(r, BeginGet(v, a, false), BothRead(a, x, expires, w, v), rest, t);
    steps := Prepend(s, BeginGet(w, a, false), r, steps, t);
  }

  /** The first getter has removed the expired entry. */
  function Removed(a: Key, x: Result, expires: int, v: Fiber): State {
    Finished(a, x, expires).(
      entries := map[], intents := map[v := Resolve(Stale(a, x, expires), false)],
      recency := Touch([Node(a, 0)], Node(a, 1)))
  }

  /** It looks the key up again. */
  function Relaunched(a: Key, x: Result, expires: int, v: Fiber): State {
    var s := Removed(a, x, expires, v);
    s.(entries := map[a := Pending(Node(a, 2), 1)], nodes := 3, keyOf := [a, a],
       lookups := map[0 := Lookup(a, Stored(x)), 1 := Lookup(a, Starting)],
       recency := Touch(s.recency, Node(a, 2)))
  }

  /** The second getter has removed the entry of that lookup. */
  function RemovedAgain(a: Key, x: Result, expires: int, v: Fiber): State {
    var s := Relaunched(a, x, expires, v);
    s.(entries := map[], intents := map[], recency := Touch(s.recency, Node(a, 1)))
  }

  lemma {:induction false} FirstExpires(a: Key, x: Result, expires: int, now: int, w: Fiber, v: Fiber)
    requires w != v && now > expires
    ensures Leads(BothRead(a, x, expires, w, v), Proceed(w, now), Removed(a, x, expires, v))
  {
    var s, e := BothRead(a, x, expires, w, v), Stale(a, x, expires);
    OneKey(a, e);
    FirstRemoved(a, x, expires, w, v);
    ExpiredRemoves(s, e, w, now);
  }

  lemma {:induction false} FirstRemoved(a: Key, x: Result, expires: int, w: Fiber, v: Fiber)
    requires w != v
    ensures WithoutExpired(BothRead(a, x, expires, w, v), Stale(a, x, expires), w) == Removed(a, x, expires, v)
  {
    var s, e := BothRead(a, x, expires, w, v), Stale(a, x, expires);
    assert s.entries - {a} == map[] && s.intents - {w} == map[v := Resolve(e, false)];
  }

  lemma {:induction false} FirstRelaunches(a: Key, x: Result, expires: int, v: Fiber)
    ensures Leads(Removed(a, x, expires, v), GetMiss(a), Relaunched(a, x, expires, v))
  {
    var s := Removed(a, x, expires, v);
    MissLaunches(s, a);
    assert s.nodes == 2 && s.keyOf == [a] && [a] + [a] == [a, a];
    assert s.lookups[1 := Lookup(a, Starting)] == map[0 := Lookup(a, Stored(x)), 1 := Lookup(a, Starting)];
  }

  lemma {:induction false} SecondExpires(a: Key, x: Result, expires: int, now: int, v: Fiber)
    requires now > expires
    ensures Leads(Relaunched(a, x, expires, v), Proceed(v, now), RemovedAgain(a, x, expires, v))
  {
    var s, e := Relaunched(a, x, expires, v), Stale(a, x, expires);
    OneKey(a, Pending(Node(a, 2), 1));
    SecondRemoved(a, x, expires, v);
    ExpiredRemoves(s, e, v, now);
  }

  lemma {:induction false} SecondRemoved(a: Key, x: Result, expires: int, v: Fiber)
    ensures WithoutExpired(Relaunched(a, x, expires, v), Stale(a, x, expires), v) == RemovedAgain(a, x, expires, v)
  {
    var s := Relaunched(a, x, expires, v);
    assert s.entries - {a} == map[] && s.intents - {v} == map[];
  }

  lemma {:induction false} SecondRelaunches(a: Key, x: Result, expires: int, v: Fiber)
    ensures var s := RemovedAgain(a, x, expires, v);
      Enabled(s, GetMiss(a)) && LookedUp(After(s, GetMiss(a)), a, 1) && LookedUp(After(s, GetMiss(a)), a, 2)
  {
    var s := RemovedAgain(a, x, expires, v);
    MissLaunches(s, a);
    assert |s.keyOf| == 2;
  }

  /** The second getter removes the entry of the first one's lookup, and looks the key up again. */
  lemma {:induction false} SecondRaces(a: Key, x: Result, expires: int, now: int, v: Fiber)
      returns (steps: seq<Step>, t: State)
    requires now > expires
    ensures Run(Relaunched(a, x, expires, v), steps, t) && OnlyGetters(steps)
    ensures LookedUp(t, a, 1) && LookedUp(t, a, 2)
  {
    SecondRelaunches(a, x, expires, v);
    var s := RemovedAgain(a, x, expires, v);
    t := After(s, GetMiss(a));
    RunOne(s, GetMiss(a));
    SecondExpires(a, x, expires, now, v);
    steps := Prepend(Relaunched(a, x, expires, v), Proceed(v, now), s, [GetMiss(a)], t);
  }

  /** The first getter removes the expired entry and looks the key up; the second follows while that lookup is
      still running. */
  lemma {:induction false} ExpiryRaces(a: Key, x: Result, expires: int, now: int, w: Fiber, v: Fiber)
      returns (steps: seq<Step>, t: State)
    requires w != v && now > expires
    ensures Run(BothRead(a, x, expires, w, v), steps, t) && OnlyGetters(steps)
    ensures LookedUp(t, a, 1) && LookedUp(t, a, 2)
  {
    steps, t := SecondRaces(a, x, expires, now, v);
    FirstRelaunches(a, x, expires, v);
    steps := GettersPrepend(Removed(a, x, expires, v), GetMiss(a), Relaunched(a, x, expires, v), steps, t);
    steps := FirstRaces(a, x, expires, now, w, v, steps, t);
  }

  lemma {:induction false} FirstRaces(a: Key, x: Result, expires: int, now: int, w: Fiber, v: Fiber, rest: seq<Step>,
      t: State) returns (steps: seq<Step>)
    requires w != v && now > expires
    requires Run(Removed(a, x, expires, v), rest, t) && OnlyGetters(rest)
    ensures Run(BothRead(a, x, expires, w, v), steps, t) && OnlyGetters(steps)
  {
    FirstExpires(a, x, expires, now, w, v);
    steps := GettersPrepend(BothRead(a, x, expires, w, v), Proceed(w, now), Removed(a, x, expires, v), rest, t);
  }

  lemma {:induction false} FirstLookup(a: Key, x: Result, expires: int, rest: seq<Step>, t: State)
      returns (steps: seq<Step>)
    requires Run(Finished(a, x, expires), rest, t) && OnlyGetters(rest)
    ensures Run(Init(1), steps, t) && OnlyGetters(steps)
  {
    FirstFinish(a, x, expires);
    steps := Prepend(Installed(a), Finish(0, x, expires), Finished(a, x, expires), rest, t);
    FirstInstall(a);
    steps := Prepend(Missed(a), Install(0), Installed(a), steps, t);
    FirstMiss(a);
    steps := Prepend(Init(1), GetMiss(a), Missed(a), steps, t);
  }

  /** A run of getters alone in which two lookups of one key are running at the same time. */
  lemma {:induction false} GettersLookUpTwice(a: Key, x: Result, expires: int, now: int, w: Fiber, v: Fiber)
      returns (steps: seq<Step>, t: State)
    requires w != v && now > expires
    ensures Run(Init(1), steps, t) && LookedUp(t, a, 1) && LookedUp(t, a, 2)
    ensures OnlyGetters(steps)
  {
    steps, t := ExpiryRaces(a, x, expires, now, w, v);
    steps := GettersRead(a, x, expires, w, v, steps, t);
    steps := FirstLookup(a, x, expires, steps, t);
  }
}
