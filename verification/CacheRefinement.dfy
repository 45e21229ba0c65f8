/** The mutable parts of the cache do what the protocol says of them: the recency list that is threaded through
    the keys, and the deferreds on which getters wait. */
module CacheRefinement {
  import opened Options
  import opened Recency
  import opened KeySets
  import A = CacheAccess
  import D = Deferreds
  import P = CacheProtocol

  type Name = MapKey<P.Key> -> P.Node

  ghost function NamesOf(keys: seq<MapKey<P.Key>>, name: Name): seq<P.Node> {
    seq(|keys|, i requires 0 <= i < |keys| => name(keys[i]))
  }

  /** Different keys of the list have different names, which tell what they are keys for. */
  ghost predicate Naming(keys: seq<MapKey<P.Key>>, name: Name) {
    && (forall i :: 0 <= i < |keys| ==> name(keys[i]).key == keys[i].current)
    && (forall i, j :: 0 <= i < |keys| && 0 <= j < |keys| && name(keys[i]) == name(keys[j]) ==> keys[i] == keys[j])
  }

  lemma {:induction false} WithoutNamed(keys: seq<MapKey<P.Key>>, key: MapKey<P.Key>, name: Name)
    requires Naming(keys + [key], name)
    ensures NamesOf(Without(keys, key), name) == Without(NamesOf(keys, name), name(key))
    decreases keys
  {
    if keys == [] {
    } else {
      var all, rest := keys + [key], keys[1..] + [key];
      assert forall i :: 0 <= i < |rest| ==> rest[i] == all[i + 1];
      assert all[0] == keys[0] && all[|keys|] == key;
      WithoutNamed(keys[1..], key, name);
      assert NamesOf(keys, name)[1..] == NamesOf(keys[1..], name);
      if keys[0] != key {
        var r := Without(keys[1..], key);
        assert NamesOf([keys[0]] + r, name) == [name(keys[0])] + NamesOf(r, name);
      }
    }
  }

  lemma {:induction false} TouchNamed(keys: seq<MapKey<P.Key>>, key: MapKey<P.Key>, name: Name)
    requires Naming(keys + [key], name)
    ensures NamesOf(Touch(keys, key), name) == Touch(NamesOf(keys, name), name(key))
  {
    WithoutNamed(keys, key, name);
    var r := Without(keys, key);
    assert NamesOf(r + [key], name) == NamesOf(r, name) + [name(key)];
  }

  lemma {:induction false} CurrentsAreNames(keys: seq<MapKey<P.Key>>, name: Name)
    requires forall i :: 0 <= i < |keys| ==> name(keys[i]).key == keys[i].current
    ensures A.Currents(keys) == P.Names(NamesOf(keys, name))
  {}

  /** When nothing is queued, the entries and the list that an access leaves, by the contract of
      `CacheState.TrackAccess`, are those of the protocol. */
  lemma {:induction false} AccessRefines(s: P.State, keys: seq<MapKey<P.Key>>, key: MapKey<P.Key>, name: Name)
    requires Naming(keys + [key], name) && s.recency == NamesOf(keys, name)
    ensures var touched := TouchAll(keys, [] + [key]);
      var evicted := Evict(s.entries, A.Currents(touched), s.capacity);
      P.TrackAccess(s, name(key)) ==
        s.(entries := evicted.entries, recency := NamesOf(touched[evicted.dropped..], name))
  {
    var touched := Touch(keys, key);
    assert [] + [key] == [key] && [key][1..] == [] && TouchAll(touched, []) == touched;
    TouchNamed(keys, key, name);
    TouchMembers(keys, key);
    var all := keys + [key];
    forall i | 0 <= i < |touched| ensures name(touched[i]).key == touched[i].current {
      assert touched[i] in all;
      var j :| 0 <= j < |all| && all[j] == touched[i];
    }
    CurrentsAreNames(touched, name);
    var n := Evict(s.entries, A.Currents(touched), s.capacity).dropped;
    assert NamesOf(touched, name)[n..] == NamesOf(touched[n..], name);
  }

  // ----- Deferreds

  /** The cell is the deferred of the number: it is complete, or holds the joiners of those who wait. */
  ghost predicate Represents(cell: D.Deferred<P.Fiber, P.Result>, s: P.State, d: nat)
    reads cell
  {
    && (match cell.state
        case Pending(js) => d !in s.done && forall w :: w in js <==> w in s.waiting && s.waiting[w] == d
        case Done(x) => d in s.done && s.done[d] == x && forall w :: w in s.waiting ==> s.waiting[w] != d)
    && (forall i :: 0 <= i < |cell.resumed| ==> ResumedWith(s, cell.resumed[i].0, d, cell.resumed[i].1))
    && (forall w :: w in s.resumed && s.resumed[w].0 == d ==> cell.Resumed(w))
  }

  ghost predicate ResumedWith(s: P.State, w: P.Fiber, d: nat, x: P.Result) {
    w in s.resumed && s.resumed[w] == (d, x)
  }

  /** Completing the cell is what the protocol says of completing the deferred. */
  method Complete(cell: D.Deferred<P.Fiber, P.Result>, ghost s: P.State, d: nat, x: P.Result) returns (won: bool)
    requires cell.Valid() && Represents(cell, s, d) && P.Exclusive(s.intents, s.waiting, s.resumed)
    modifies cell
    ensures cell.Valid() && Represents(cell, P.CompleteDeferred(s, d, x), d)
    ensures won <==> d !in s.done
    ensures !won ==> P.CompleteDeferred(s, d, x) == s
  {
    ghost var was := cell.state;
    won := cell.CompleteWith(x);
    if won {
      ResumedAll(cell, was.joiners, x);
    }
  }

  lemma ResumedAll(cell: D.Deferred<P.Fiber, P.Result>, js: seq<P.Fiber>, x: P.Result)
    requires cell.resumed == D.Deferred<P.Fiber, P.Result>.With(js, x)
    ensures forall w :: w in js ==> cell.Resumed(w)
  {
    forall w | w in js ensures cell.Resumed(w) {
      var i :| 0 <= i < |js| && js[i] == w;
      assert cell.resumed[i].0 == w;
    }
  }

  /** So is awaiting it, for a joiner that has not awaited it before. */
  method Await(cell: D.Deferred<P.Fiber, P.Result>, ghost s: P.State, w: P.Fiber, d: nat)
      returns (now: Option<P.Result>)
    requires cell.Valid() && Represents(cell, s, d) && P.Idle(s, w) && w !in cell.awaited
    modifies cell
    ensures cell.Valid() && Represents(cell, P.AwaitDeferred(s, w, d), d)
    ensures now == if d in s.done then Some(s.done[d]) else None
  {
    ghost var before := cell.resumed;
    now := cell.Await(w);
    if now.Some? {
      assert cell.resumed[|before|].0 == w;
      assert forall i :: 0 <= i < |before| ==> cell.resumed[i] == before[i];
    }
  }

  /** And interrupting a fiber that waits on it. */
  method Interrupt(cell: D.Deferred<P.Fiber, P.Result>, ghost s: P.State, w: P.Fiber, d: nat)
    requires cell.Valid() && Represents(cell, s, d) && w in s.waiting && s.waiting[w] == d
    modifies cell
    ensures cell.Valid() && Represents(cell, P.After(s, P.InterruptFiber(w)), d)
  {
    assert w in cell.state.joiners;
    ghost var js := cell.state.joiners;
    cell.InterruptJoiner(w);
    WithoutMembers(js, w);
  }

  // The cells of other deferreds do not notice.

  lemma OtherCompleted(cell: D.Deferred<P.Fiber, P.Result>, s: P.State, d: nat, x: P.Result, e: nat)
    requires Represents(cell, s, e) && e != d && P.Exclusive(s.intents, s.waiting, s.resumed)
    ensures Represents(cell, P.CompleteDeferred(s, d, x), e)
  {}

  lemma OtherAwaited(cell: D.Deferred<P.Fiber, P.Result>, s: P.State, w: P.Fiber, d: nat, e: nat)
    requires Represents(cell, s, e) && e != d && P.Idle(s, w)
    ensures Represents(cell, P.AwaitDeferred(s, w, d), e)
  {}

  lemma OtherInterrupted(cell: D.Deferred<P.Fiber, P.Result>, s: P.State, w: P.Fiber, d: nat, e: nat)
    requires Represents(cell, s, e) && e != d && w in s.waiting && s.waiting[w] == d
    ensures Represents(cell, P.After(s, P.InterruptFiber(w)), e)
  {}
}
