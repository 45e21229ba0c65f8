/** The registry of finalizers behind a scope. */
module ReleaseMaps {
  import opened Options

  datatype State<F, X> =
    | Running(nextKey: nat, finalizers: map<nat, F>)
    | Exited(nextKey: nat, exit: X)

  // ----- Counting finalizers

  /** What is held under the key, if anything. */
  ghost function Under<F>(m: map<nat, F>, key: nat): seq<F> {
    if key in m then [m[key]] else []
  }

  /** How often the finalizer is held under the keys below the bound. */
  ghost function Held<F>(m: map<nat, F>, bound: nat, f: F): nat {
    if bound == 0 then 0 else Held(m, bound - 1, f) + Count(Under(m, bound - 1), f)
  }

  ghost predicate AllBelow<F>(m: map<nat, F>, bound: nat) {
    forall k :: k in m ==> k < bound
  }

  lemma {:induction false} HeldAlike<F>(m: map<nat, F>, n: map<nat, F>, bound: nat, f: F)
    requires forall k :: 0 <= k < bound ==> Under(m, k) == Under(n, k)
    ensures Held(m, bound, f) == Held(n, bound, f)
  {
    if bound == 0 {
    } else {
      HeldAlike(m, n, bound - 1, f);
    }
  }

  lemma {:induction false} HeldUpTo<F>(m: map<nat, F>, bound: nat, higher: nat, f: F)
    requires AllBelow(m, bound) && bound <= higher
    ensures Held(m, higher, f) == Held(m, bound, f)
  {
    if bound == higher {
    } else {
      HeldUpTo(m, bound, higher - 1, f);
    }
  }

  /** What differs under one key only differs in what is held by what is under that key. */
  lemma {:induction false} HeldElsewhere<F>(m: map<nat, F>, n: map<nat, F>, key: nat, bound: nat, f: F)
    requires key < bound && forall k: nat :: k != key ==> Under(m, k) == Under(n, k)
    ensures Held(n, bound, f) + Count(Under(m, key), f) == Held(m, bound, f) + Count(Under(n, key), f)
  {
    if key == bound - 1 {
      HeldAlike(m, n, key, f);
    } else {
      HeldElsewhere(m, n, key, bound - 1, f);
    }
  }

  /** Putting a finalizer under a key displaces what was there, and nothing else. */
  lemma HeldWith<F>(m: map<nat, F>, key: nat, g: F, bound: nat, f: F)
    requires key < bound
    ensures Held(m[key := g], bound, f) + Count(Under(m, key), f) == Held(m, bound, f) + Count([g], f)
  {
    HeldElsewhere(m, m[key := g], key, bound, f);
  }

  lemma HeldWithout<F>(m: map<nat, F>, key: nat, bound: nat, f: F)
    requires key in m ==> key < bound
    ensures Held(m, bound, f) == Held(m - {key}, bound, f) + Count(Under(m, key), f)
  {
    if key in m {
      HeldElsewhere(m, m - {key}, key, bound, f);
    } else {
      assert m - {key} == m;
    }
  }

  /** Registering a finalizer keeps all that are held exactly when its key is free. */
  lemma RegistrationKeepsAllIff<F(!new)>(m: map<nat, F>, key: nat, g: F, bound: nat)
    requires key < bound
    ensures (forall f :: Held(m[key := g], bound, f) == Held(m, bound, f) + Count([g], f)) <==> key !in m
  {
    forall f ensures Held(m[key := g], bound, f) + Count(Under(m, key), f) == Held(m, bound, f) + Count([g], f) {
      HeldWith(m, key, g, bound, f);
    }
    if key in m {
      assert Count(Under(m, key), m[key]) == 1;
      assert Held(m[key := g], bound, m[key]) != Held(m, bound, m[key]) + Count([g], m[key]);
    } else {
      assert forall f :: Count(Under(m, key), f) == 0;
    }
  }

  ghost predicate Descending(keys: seq<nat>) {
    forall i, j :: 0 <= i < j < |keys| ==> keys[j] < keys[i]
  }

  ghost predicate InKeyOrder<F>(m: map<nat, F>, handed: seq<F>, keys: seq<nat>) {
    && Descending(keys) && |handed| == |keys|
    && forall i :: 0 <= i < |keys| ==> keys[i] in m && handed[i] == m[keys[i]]
  }

  /** All finalizers of the map, in descending order of their keys. */
  ghost predicate LatestFirst<F>(m: map<nat, F>, handed: seq<F>) {
    exists keys :: InKeyOrder(m, handed, keys) && forall k :: k in m ==> k in keys
  }

  /** The keys of the map below the bound. */
  ghost predicate KeysBelow<F>(m: map<nat, F>, keys: seq<nat>, bound: nat) {
    forall k :: k in keys <==> k in m && k < bound
  }

  /** Of descending keys the first is the largest. */
  lemma FirstIsLast<F>(m: map<nat, F>, keys: seq<nat>, last: nat)
    requires Descending(keys) && last in m && KeysBelow(m, keys, last + 1)
    ensures keys != [] && keys[0] == last && KeysBelow(m, keys[1..], last)
  {
    var i :| 0 <= i < |keys| && keys[i] == last;
    assert keys[0] in keys && i == 0;
    assert keys == [keys[0]] + keys[1..];
    assert forall k :: k in keys <==> k == keys[0] || k in keys[1..];
  }

  /** What is handed over after the finalizer under the last key, if there is one. */
  lemma HandedAfter<F>(m: map<nat, F>, handed: seq<F>, keys: seq<nat>, last: nat)
      returns (rest: seq<F>, others: seq<nat>)
    requires InKeyOrder(m, handed, keys) && KeysBelow(m, keys, last + 1)
    ensures handed == Under(m, last) + rest
    ensures InKeyOrder(m, rest, others) && KeysBelow(m, others, last)
  {
    rest, others := handed, keys;
    if last in m {
      FirstIsLast(m, keys, last);
      rest, others := handed[1..], keys[1..];
    }
  }

  lemma SomeMember<T>(s: seq<T>)
    ensures s == [] || exists x :: x in s
  {
    if s != [] { assert s[0] in s; }
  }

  lemma NoneHanded<F>(m: map<nat, F>, handed: seq<F>, keys: seq<nat>)
    requires InKeyOrder(m, handed, keys) && KeysBelow(m, keys, 0)
    ensures handed == []
  {
    SomeMember(keys);
  }

  /** The finalizers under the keys below the bound, the last key first. */
  ghost function InOrder<F>(m: map<nat, F>, bound: nat): seq<F> {
    if bound == 0 then [] else Under(m, bound - 1) + InOrder(m, bound - 1)
  }

  lemma {:induction false} OrderIsUnique<F>(m: map<nat, F>, handed: seq<F>, keys: seq<nat>, bound: nat)
    requires InKeyOrder(m, handed, keys) && KeysBelow(m, keys, bound)
    ensures handed == InOrder(m, bound)
    decreases bound
  {
    if bound == 0 {
      NoneHanded(m, handed, keys);
    } else {
      var last: nat := bound - 1;
      var rest, others := HandedAfter(m, handed, keys, last);
      OrderIsUnique(m, rest, others, last);
      assert InOrder(m, bound) == Under(m, last) + InOrder(m, last);
    }
  }

  lemma {:induction false} InOrderHeld<F>(m: map<nat, F>, bound: nat, f: F)
    ensures Count(InOrder(m, bound), f) == Held(m, bound, f)
  {
    if bound == 0 {
    } else {
      InOrderHeld(m, bound - 1, f);
      CountAppend(Under(m, bound - 1), InOrder(m, bound - 1), f);
    }
  }

  lemma HeldInOrder<F>(m: map<nat, F>, handed: seq<F>, keys: seq<nat>, bound: nat, f: F)
    requires InKeyOrder(m, handed, keys) && KeysBelow(m, keys, bound)
    ensures Count(handed, f) == Held(m, bound, f)
  {
    OrderIsUnique(m, handed, keys, bound);
    InOrderHeld(m, bound, f);
  }

  lemma LargestExists(s: set<nat>)
    requires s != {}
    ensures exists k :: k in s && forall l :: l in s ==> l <= k
  {
    var x :| x in s;
    var rest := s - {x};
    if rest == {} {
      assert forall l :: l in s && l != x ==> l in rest;
    } else {
      LargestExists(rest);
      var k :| k in rest && forall l :: l in rest ==> l <= k;
      assert forall l :: l in s ==> l == x || l in rest;
      if k < x { assert forall l :: l in s ==> l <= x; } else { assert forall l :: l in s ==> l <= k; }
    }
  }

  // ----- The finalizers that were run

  /** The finalizers among the runs. */
  ghost function Ran<F, X>(runs: seq<(F, X)>): seq<F> {
    seq(|runs|, i requires 0 <= i < |runs| => runs[i].0)
  }

  lemma RanMore<F, X>(runs: seq<(F, X)>, f: F, x: X)
    ensures Ran(runs + [(f, x)]) == Ran(runs) + [f]
  {}

  lemma {:induction false} CountAt<F>(s: seq<F>, i: nat)
    requires i < |s|
    ensures Count(s, s[i]) >= 1
  {
    if i == |s| - 1 {
    } else {
      CountAt(s[..|s| - 1], i);
    }
  }

  lemma {:induction false} OnceMeansDistinct<F(!new)>(s: seq<F>)
    requires forall f :: Count(s, f) <= 1
    ensures Distinct(s)
  {
    forall i, j | 0 <= i < j < |s| ensures s[i] != s[j] {
      assert s == s[..j] + s[j..];
      CountAppend(s[..j], s[j..], s[j]);
      CountAt(s[j..], 0);
      if s[i] == s[j] { CountAt(s[..j], i); }
    }
  }

  // ----- What becomes of the finalizers handed in

  ghost function Registered<F, X>(state: State<F, X>, bound: nat, f: F): nat {
    match state
    case Running(_, m) => Held(m, bound, f)
    case Exited(_, _) => 0
  }

  /** All finalizers handed in, and of these the ones run, taken out again, handed over on closing, and
      overwritten. */
  datatype Ledger<F> = Ledger(given: seq<F>, ran: seq<F>, taken: seq<F>, handedOver: seq<F>, lost: seq<F>)
  {
    /** How often the finalizer has left the map. */
    ghost function Gone(f: F): nat {
      Count(ran, f) + Count(taken, f) + Count(handedOver, f) + Count(lost, f)
    }
  }

  /** Every finalizer handed in is registered, was run, taken out, handed over, or overwritten: each in exactly
      one of these ways. */
  ghost predicate Conserved<F(!new), X>(state: State<F, X>, bound: nat, l: Ledger<F>) {
    forall f :: Count(l.given, f) == Registered(state, bound, f) + l.Gone(f)
  }

  /** A finalizer handed in that displaces what is under its key. */
  lemma PutConserves<F(!new), X>(n: nat, next: nat, m: map<nat, F>, key: nat, g: F, bound: nat, higher: nat,
      l: Ledger<F>)
    requires Conserved<F, X>(Running(n, m), bound, l) && AllBelow(m, bound) && bound <= higher && key < higher
    ensures Conserved<F, X>(Running(next, m[key := g]), higher,
                            l.(given := l.given + [g], taken := l.taken + Under(m, key)))
    ensures Conserved<F, X>(Running(next, m[key := g]), higher,
                            l.(given := l.given + [g], lost := l.lost + Under(m, key)))
  {
    forall f
      ensures Count(l.given + [g], f) == Held(m[key := g], higher, f) + l.Gone(f) + Count(Under(m, key), f)
      ensures Count(l.taken + Under(m, key), f) == Count(l.taken, f) + Count(Under(m, key), f)
      ensures Count(l.lost + Under(m, key), f) == Count(l.lost, f) + Count(Under(m, key), f)
    {
      HeldUpTo(m, bound, higher, f);
      HeldWith(m, key, g, higher, f);
      CountAppend(l.given, [g], f);
      CountAppend(l.taken, Under(m, key), f);
      CountAppend(l.lost, Under(m, key), f);
      assert Count(l.given, f) == Registered<F, X>(Running(n, m), bound, f) + l.Gone(f);
    }
  }

  /** A finalizer that is run or taken out. */
  lemma ForgetConserves<F(!new), X>(n: nat, m: map<nat, F>, key: nat, bound: nat, l: Ledger<F>)
    requires Conserved<F, X>(Running(n, m), bound, l) && AllBelow(m, bound)
    ensures Conserved<F, X>(Running(n, m - {key}), bound, l.(ran := l.ran + Under(m, key)))
    ensures Conserved<F, X>(Running(n, m - {key}), bound, l.(taken := l.taken + Under(m, key)))
  {
    forall f
      ensures Count(l.given, f) == Held(m - {key}, bound, f) + l.Gone(f) + Count(Under(m, key), f)
      ensures Count(l.ran + Under(m, key), f) == Count(l.ran, f) + Count(Under(m, key), f)
      ensures Count(l.taken + Under(m, key), f) == Count(l.taken, f) + Count(Under(m, key), f)
    {
      HeldWithout(m, key, bound, f);
      CountAppend(l.ran, Under(m, key), f);
      CountAppend(l.taken, Under(m, key), f);
      assert Count(l.given, f) == Registered<F, X>(Running(n, m), bound, f) + l.Gone(f);
    }
  }

  /** A finalizer handed in after exit. */
  lemma RunConserves<F(!new), X>(n: nat, next: nat, x: X, bound: nat, g: F, l: Ledger<F>)
    requires Conserved(Exited(n, x), bound, l)
    ensures Conserved(Exited(next, x), bound, l.(given := l.given + [g], ran := l.ran + [g]))
  {
    forall f
      ensures Count(l.given + [g], f) == l.Gone(f) + Count([g], f)
      ensures Count(l.ran + [g], f) == Count(l.ran, f) + Count([g], f)
    {
      CountAppend(l.given, [g], f);
      CountAppend(l.ran, [g], f);
      assert Count(l.given, f) == Registered(Exited(n, x), bound, f) + l.Gone(f);
    }
  }

  /** All registered finalizers are handed over. */
  lemma CloseConserves<F(!new), X>(n: nat, m: map<nat, F>, x: X, handed: seq<F>, keys: seq<nat>, bound: nat,
      l: Ledger<F>)
    requires Conserved<F, X>(Running(n, m), bound, l) && AllBelow(m, bound)
    requires InKeyOrder(m, handed, keys) && forall k :: k in keys <==> k in m
    ensures Conserved(Exited(n, x), bound, l.(handedOver := l.handedOver + handed))
  {
    forall f
      ensures Count(l.given, f) == Count(handed, f) + l.Gone(f)
      ensures Count(l.handedOver + handed, f) == Count(l.handedOver, f) + Count(handed, f)
    {
      HeldInOrder(m, handed, keys, bound, f);
      CountAppend(l.handedOver, handed, f);
      assert Count(l.given, f) == Registered<F, X>(Running(n, m), bound, f) + l.Gone(f);
    }
  }

  class ReleaseMap<F(==,!new), X> {
    var state: State<F, X>

    /** The finalizers run so far, with the exit each was run with. */
    var runs: seq<(F, X)>

    ghost var ledger: Ledger<F>

    /** The keys given out, a bound on the keys in use, and whether `Replace` was ever given a key that had not
        been given out. */
    ghost var issued: seq<nat>
    ghost var bound: nat
    ghost var strayed: bool

    ghost predicate Bounded()
      reads this
    {
      && (forall i :: 0 <= i < |issued| ==> issued[i] < state.nextKey)
      && (state.Running? ==> AllBelow(state.finalizers, bound))
      && (!strayed && state.Running? ==> AllBelow(state.finalizers, state.nextKey))
    }

    ghost predicate Valid()
      reads this
    {
      && Conserved(state, bound, ledger) && ledger.ran == Ran(runs)
      && Bounded() && (!strayed ==> ledger.lost == [])
    }

    constructor ()
      ensures Valid() && state == Running(0, map[]) && runs == [] && issued == [] && !strayed
      ensures ledger == Ledger([], [], [], [], [])
    {
      state, runs := Running(0, map[]), [];
      issued, bound, strayed, ledger := [], 0, false, Ledger([], [], [], [], []);
    }

    /** Runs the finalizer with the exit. */
    method Run(f: F, exit: X)
      modifies this`runs
      ensures runs == old(runs) + [(f, exit)] && Ran(runs) == old(Ran(runs)) + [f]
    {
      RanMore(runs, f, exit);
      runs := runs + [(f, exit)];
    }

    /** After exit the finalizer runs at once with the stored exit; before, it is registered under a key that
        was never given out. A finalizer that already sits under that key is overwritten. */
    method AddIfOpen(f: F) returns (r: Option<nat>)
      requires Valid()
      modifies this
      ensures Valid() && strayed == old(strayed)
      ensures match old(state)
              case Exited(n, x) =>
                r == None && state == Exited(n + 1, x) && runs == old(runs) + [(f, x)] && issued == old(issued) &&
                var l := old(ledger); ledger == l.(given := l.given + [f], ran := l.ran + [f])
              case Running(n, m) =>
                r == Some(n) && state == Running(n + 1, m[n := f]) && runs == old(runs) &&
                issued == old(issued) + [n] &&
                var l := old(ledger); ledger == l.(given := l.given + [f], lost := l.lost + Under(m, n))
      ensures r.Some? ==> r.value !in old(issued)
      ensures !strayed && r.Some? ==> r.value !in old(state).finalizers
    {
      match state {
        case Exited(n, x) =>
          RunConserves(n, n + 1, x, bound, f, ledger);
          ledger := ledger.(given := ledger.given + [f], ran := ledger.ran + [f]);
          state := Exited(n + 1, x);
          Run(f, x);
          return None;
        case Running(key, m) =>
          ghost var higher := if key < bound then bound else key + 1;
          PutConserves<F, X>(key, key + 1, m, key, f, bound, higher, ledger);
          ledger := ledger.(given := ledger.given + [f], lost := ledger.lost + Under(m, key));
          bound, issued := higher, issued + [key];
          state := Running(key + 1, m[key := f]);
          return Some(key);
      }
    }

    /** Runs and forgets the finalizer under the key, if there is one. */
    method Release(key: nat, exit: X)
      requires Valid()
      modifies this`state, this`runs, this`ledger
      ensures Valid() && ledger == old(ledger).(ran := ledger.ran)
      ensures match old(state)
              case Exited(_, _) => state == old(state) && runs == old(runs)
              case Running(n, m) =>
                state == Running(n, m - {key}) &&
                runs == if key in m then old(runs) + [(m[key], exit)] else old(runs)
    {
      match state {
        case Exited(_, _) =>
        case Running(n, m) =>
          ForgetConserves<F, X>(n, m, key, bound, ledger);
          ledger := ledger.(ran := ledger.ran + Under(m, key));
          state := Running(n, m - {key});
          if key in m {
            Run(m[key], exit);
          }
      }
    }

    method Get(key: nat) returns (r: Option<F>)
      ensures r == if state.Running? && key in state.finalizers then Some(state.finalizers[key]) else None
    {
      r := match state
        case Running(_, m) => if key in m then Some(m[key]) else None
        case Exited(_, _) => None;
    }

    /** Takes out the finalizer under the key and puts another one there; after exit runs it at once. */
    method Replace(key: nat, f: F) returns (r: Option<F>)
      requires Valid()
      modifies this
      ensures Valid() && issued == old(issued)
      ensures strayed == (old(strayed) || (old(state.Running?) && key >= old(state.nextKey)))
      ensures match old(state)
              case Exited(_, x) =>
                r == None && state == old(state) && runs == old(runs) + [(f, x)] &&
                var l := old(ledger); ledger == l.(given := l.given + [f], ran := l.ran + [f])
              case Running(n, m) =>
                r == (if key in m then Some(m[key]) else None) && state == Running(n, m[key := f]) &&
                runs == old(runs) &&
                var l := old(ledger); ledger == l.(given := l.given + [f], taken := l.taken + Under(m, key))
    {
      r := Get(key);
      match state {
        case Exited(n, x) =>
          RunConserves(n, n, x, bound, f, ledger);
          ledger := ledger.(given := ledger.given + [f], ran := ledger.ran + [f]);
          Run(f, x);
        case Running(n, m) =>
          ghost var higher := if key < bound then bound else key + 1;
          PutConserves<F, X>(n, n, m, key, f, bound, higher, ledger);
          ledger := ledger.(given := ledger.given + [f], taken := ledger.taken + Under(m, key));
          bound, strayed := higher, strayed || key >= n;
          state := Running(n, m[key := f]);
      }
    }

    method Remove(key: nat) returns (r: Option<F>)
      requires Valid()
      modifies this`state, this`ledger
      ensures Valid()
      ensures match old(state)
              case Exited(_, _) => r == None && state == old(state) && ledger == old(ledger)
              case Running(n, m) =>
                r == (if key in m then Some(m[key]) else None) && state == Running(n, m - {key}) &&
                ledger == old(ledger).(taken := old(ledger).taken + Under(m, key))
    {
      r := Get(key);
      match state {
        case Exited(_, _) =>
        case Running(n, m) =>
          ForgetConserves<F, X>(n, m, key, bound, ledger);
          ledger := ledger.(taken := ledger.taken + Under(m, key));
          state := Running(n, m - {key});
      }
    }

    /** Closing hands over every registered finalizer, the latest key first. */
    method ReleaseAll(exit: X) returns (handed: seq<F>)
      requires Valid()
      modifies this`state, this`ledger
      ensures Valid() && ledger == old(ledger).(handedOver := old(ledger).handedOver + handed)
      ensures match old(state)
              case Exited(_, _) => handed == [] && state == old(state)
              case Running(n, m) => LatestFirst(m, handed) && state == Exited(n, exit)
    {
      match state {
        case Exited(_, _) =>
          return [];
        case Running(n, m) =>
          ghost var keys;
          handed, keys := SortFinalizers(m);
          CloseConserves(n, m, exit, handed, keys, bound, ledger);
          ledger := ledger.(handedOver := ledger.handedOver + handed);
          state := Exited(n, exit);
      }
    }

    static method SortFinalizers(finalizers: map<nat, F>) returns (handed: seq<F>, ghost keys: seq<nat>)
      ensures InKeyOrder(finalizers, handed, keys) && forall k :: k in keys <==> k in finalizers
    {
      handed, keys := [], [];
      var left := finalizers.Keys;
      while left != {}
        invariant left <= finalizers.Keys
        invariant InKeyOrder(finalizers, handed, keys)
        invariant forall k :: k in keys <==> k in finalizers && k !in left
        invariant forall k, l :: k in keys && l in left ==> l < k
      {
        LargestExists(left);
        var key :| key in left && forall l :: l in left ==> l <= key;
        handed := handed + [finalizers[key]];
        keys := keys + [key];
        left := left - {key};
      }
    }

    /** Unless `Replace` was given a key that had not been given out, each finalizer is registered, was run,
        taken out, or handed over, as often as it was handed in. */
    lemma NoneLost(f: F)
      requires Valid()
      ensures !strayed ==>
        Count(ledger.given, f) == Registered(state, bound, f) + Count(Ran(runs), f) +
                                  Count(ledger.taken, f) + Count(ledger.handedOver, f)
    {
      assert Count(ledger.given, f) == Registered(state, bound, f) + ledger.Gone(f);
    }

    /** No finalizer is run more often than it was handed in; one that was handed in once and run is neither
        registered any more nor left to whoever took it out or closed the map. */
    lemma RunsAtMostOnce(f: F)
      requires Valid()
      ensures Count(Ran(runs), f) <= Count(ledger.given, f)
      ensures Count(ledger.given, f) <= 1 && f in Ran(runs) ==>
        Registered(state, bound, f) == Count(ledger.taken, f) == Count(ledger.handedOver, f) == 0
    {
      assert Count(ledger.given, f) == Registered(state, bound, f) + ledger.Gone(f);
      if f in Ran(runs) {
        var i :| 0 <= i < |Ran(runs)| && Ran(runs)[i] == f;
        CountAt(Ran(runs), i);
      }
    }

    /** One operation of a run. */
    method Perform(op: Operation<F, X>)
      requires Valid()
      modifies this
      ensures Valid() && ledger.given == old(ledger.given) + op.Given()
      ensures old(runs) <= runs && old(issued) <= issued
      ensures state.nextKey == old(state.nextKey) + (if op.Add? then 1 else 0)
      ensures state.Running? <==> old(state.Running?) && !op.Close?
      ensures strayed <==>
        old(strayed) || (op.ReplaceAt? && old(state.Running?) && op.key >= old(state.nextKey))
    {
      match op {
        case Add(f) => var key := AddIfOpen(f);
        case ReleaseAt(key, exit) => Release(key, exit);
        case ReplaceAt(key, f) => var before := Replace(key, f);
        case RemoveAt(key) => var before := Remove(key);
        case Close(exit) => var handed := ReleaseAll(exit);
      }
    }
  }

  datatype Operation<F, X> =
    | Add(f: F)
    | ReleaseAt(key: nat, exit: X)
    | ReplaceAt(key: nat, f: F)
    | RemoveAt(key: nat)
    | Close(exit: X)
  {
    /** The finalizer handed in, if any. */
    ghost function Given(): seq<F> {
      match this
      case Add(f) => [f]
      case ReplaceAt(_, f) => [f]
      case _ => []
    }
  }

  /** The finalizers that a run of operations hands in. */
  ghost function GivenIn<F, X>(ops: seq<Operation<F, X>>): seq<F> {
    if ops == [] then [] else GivenIn(ops[..|ops| - 1]) + ops[|ops| - 1].Given()
  }

  lemma {:induction false} GivenMore<F, X>(ops: seq<Operation<F, X>>, op: Operation<F, X>)
    ensures GivenIn(ops + [op]) == GivenIn(ops) + op.Given()
  {
    assert (ops + [op])[..|ops|] == ops;
  }

  /** How many finalizers the operations add. */
  ghost function Adds<F, X>(ops: seq<Operation<F, X>>): nat {
    if ops == [] then 0 else Adds(ops[..|ops| - 1]) + if ops[|ops| - 1].Add? then 1 else 0
  }

  ghost predicate Closes<F, X>(ops: seq<Operation<F, X>>) {
    ops != [] && (Closes(ops[..|ops| - 1]) || ops[|ops| - 1].Close?)
  }

  /** Some replacement, before the map is closed, is under a key that no addition before it was given. */
  ghost predicate Strays<F, X>(ops: seq<Operation<F, X>>) {
    ops != [] &&
    var before, last := ops[..|ops| - 1], ops[|ops| - 1];
    Strays(before) || (last.ReplaceAt? && !Closes(before) && last.key >= Adds(before))
  }

  lemma {:induction false} OneMoreOperation<F, X>(ops: seq<Operation<F, X>>, op: Operation<F, X>)
    ensures Adds(ops + [op]) == Adds(ops) + if op.Add? then 1 else 0
    ensures Closes(ops + [op]) <==> Closes(ops) || op.Close?
    ensures Strays(ops + [op]) <==> Strays(ops) || (op.ReplaceAt? && !Closes(ops) && op.key >= Adds(ops))
  {
    assert (ops + [op])[..|ops|] == ops;
  }

  /** After any run of operations that replace only under keys given out before, every finalizer handed in is
      registered, was run, taken out, or handed over; and none that is handed in once is run twice. */
  method AnyRun<F(==,!new), X>(ops: seq<Operation<F, X>>) returns (m: ReleaseMap<F, X>)
    ensures fresh(m) && m.Valid() && m.ledger.given == GivenIn(ops)
    ensures m.strayed <==> Strays(ops)
    ensures !Strays(ops) ==> forall f ::
      Count(GivenIn(ops), f) == Registered(m.state, m.bound, f) + Count(Ran(m.runs), f) +
                                Count(m.ledger.taken, f) + Count(m.ledger.handedOver, f)
    ensures (forall f :: Count(GivenIn(ops), f) <= 1) ==> Distinct(Ran(m.runs))
  {
    m := new ReleaseMap();
    ghost var past: seq<Operation<F, X>> := [];
    for i := 0 to |ops|
      invariant past == ops[..i]
      invariant fresh(m) && m.Valid() && m.ledger.given == GivenIn(past)
      invariant m.state.nextKey == Adds(past) && (m.state.Running? <==> !Closes(past))
      invariant m.strayed <==> Strays(past)
    {
      GivenMore(past, ops[i]);
      OneMoreOperation(past, ops[i]);
      m.Perform(ops[i]);
      past := past + [ops[i]];
    }
    assert past == ops;
    forall f { m.NoneLost(f); }
    if forall f :: Count(GivenIn(ops), f) <= 1 {
      forall f ensures Count(Ran(m.runs), f) <= 1 { m.RunsAtMostOnce(f); }
      OnceMeansDistinct(Ran(m.runs));
    }
  }

  /** A stray replacement makes the next registration overwrite a finalizer, which is then never run. */
  method StrayReplacementLoses<F(==,!new), X>(f: F, g: F) returns (m: ReleaseMap<F, X>)
    ensures m.Valid() && m.state == Running(1, map[0 := g])
    ensures m.ledger == Ledger([f, g], [], [], [], [f]) && m.runs == []
  {
    m := new ReleaseMap();
    var r := m.Replace(0, f);
    var k := m.AddIfOpen(g);
  }
}
