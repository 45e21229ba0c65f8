/** Access tracking and eviction of the cache. */
module CacheAccess {
  import opened Recency
  import opened KeySets

  ghost function Currents<K>(keys: seq<MapKey<K>>): seq<K> {
    seq(|keys|, i requires 0 <= i < |keys| => keys[i].current)
  }

  class CacheState<K(==), V> {
    const capacity: int
    const keys: KeySet<K>
    var entries: map<K, V>
    var accesses: seq<MapKey<K>>
    var updating: bool

    /** Linked in the key set, or not linked at all. */
    ghost predicate Trackable(key: MapKey<K>)
      reads keys, key
    {
      key in keys.contents || (key.previous == null && key.next == null)
    }

    /** Keys that may be accessed, now or again. */
    ghost predicate Tracked(ks: seq<MapKey<K>>)
      reads keys, ks
    {
      forall i :: 0 <= i < |ks| ==> Trackable(ks[i])
    }

    ghost predicate Valid()
      reads this, keys, keys.contents, accesses
    {
      keys.Valid() && Tracked(accesses)
    }

    constructor (capacity: int)
      ensures Valid() && this.capacity == capacity && entries == map[] && accesses == [] && !updating
      ensures fresh(keys) && keys.contents == []
    {
      this.capacity := capacity;
      keys := new KeySet();
      entries, accesses, updating := map[], [], false;
    }

    /** Queues the access; unless a caller further up is doing so already, moves all queued keys to the
        recent end and evicts the oldest keys until the entries fit. */
    method TrackAccess(key: MapKey<K>)
      requires Valid() && Trackable(key)
      modifies this`entries, this`accesses, this`updating, keys, keys.contents, accesses, key
      ensures Valid() && Trackable(key) && Tracked(old(keys.contents)) && Tracked(old(accesses))
      ensures old(updating) ==>
        (accesses == old(accesses) + [key] && entries == old(entries) && keys.contents == old(keys.contents) && updating)
      ensures !old(updating) ==>
        (accesses == [] && !updating &&
         var touched := TouchAll(old(keys.contents), old(accesses) + [key]);
         var evicted := Evict(old(entries), Currents(touched), capacity);
         entries == evicted.entries && keys.contents == touched[evicted.dropped..])
    {
      ghost var queued := accesses;
      TrackedMore(queued, key);
      accesses := accesses + [key];
      if !updating {
        updating := true;
        DrainAndEvict();
        updating := false;
        TrackedFewer(queued, key);
      } else {
        LinkedAreTracked();
      }
    }

    lemma LinkedAreTracked()
      ensures Tracked(keys.contents)
    {}

    lemma TrackedMore(ks: seq<MapKey<K>>, key: MapKey<K>)
      requires Tracked(ks) && Trackable(key)
      ensures Tracked(ks + [key])
    {}

    lemma TrackedFewer(ks: seq<MapKey<K>>, key: MapKey<K>)
      requires Tracked(ks + [key])
      ensures Tracked(ks) && Trackable(key)
    {
      assert (ks + [key])[|ks|] == key;
      forall i | 0 <= i < |ks| ensures Trackable(ks[i]) { assert (ks + [key])[i] == ks[i]; }
    }

    /** What an access does when nobody further up is doing it. */
    method DrainAndEvict()
      requires Valid()
      modifies this`entries, this`accesses, keys, keys.contents, accesses
      ensures Valid() && accesses == [] && Tracked(old(keys.contents)) && Tracked(old(accesses))
      ensures var touched := TouchAll(old(keys.contents), old(accesses));
        var evicted := Evict(old(entries), Currents(touched), capacity);
        entries == evicted.entries && keys.contents == touched[evicted.dropped..]
    {
      Drain();
      ghost var touched := keys.contents;
      TouchAllMembers(old(keys.contents), old(accesses));
      EvictOldest();
      AmongTracked(touched, old(keys.contents));
      AmongTracked(touched, old(accesses));
    }

    lemma AmongTracked(ks: seq<MapKey<K>>, part: seq<MapKey<K>>)
      requires Tracked(ks) && forall k :: k in part ==> k in ks
      ensures Tracked(part)
    {
      forall i | 0 <= i < |part| ensures Trackable(part[i]) {
        assert part[i] in ks;
        var j :| 0 <= j < |ks| && ks[j] == part[i];
      }
    }

    method Drain()
      requires Valid()
      modifies this`accesses, keys, keys.contents, accesses
      ensures keys.Valid() && accesses == []
      ensures keys.contents == TouchAll(old(keys.contents), old(accesses))
      ensures Within(keys.contents, old(keys.contents), old(accesses))
    {
      ghost var queue, start := accesses, keys.contents;
      ghost var n := 0;
      var loop := true;
      while loop
        invariant Valid() && n <= |queue| && accesses == queue[n..]
        invariant keys.contents == TouchAll(start, queue[..n])
        invariant Within(keys.contents, start, queue)
        invariant !loop ==> accesses == []
        decreases |queue| - n, loop
      {
        if accesses == [] {
          loop := false;
        } else {
          assert queue[..n + 1] == queue[..n] + [queue[n]];
          TouchAllAppend(start, queue[..n], queue[n]);
          assert Within(accesses, start, queue);
          MoveNext();
          n := n + 1;
        }
      }
      assert queue[..|queue|] == queue;
    }

    static ghost predicate Within(keys: seq<MapKey<K>>, a: seq<MapKey<K>>, b: seq<MapKey<K>>) {
      forall i :: 0 <= i < |keys| ==> keys[i] in a || keys[i] in b
    }

    /** Takes the next key off the queue and moves it to the recent end. */
    method MoveNext()
      requires Valid() && accesses != []
      modifies this`accesses, keys, keys.contents, accesses
      ensures Valid() && accesses == old(accesses)[1..]
      ensures keys.contents == Touch(old(keys.contents), old(accesses)[0])
      ensures Within(keys.contents, old(keys.contents), old(accesses))
    {
      ghost var before := keys.contents;
      var key := accesses[0];
      assert key in accesses;
      accesses := accesses[1..];
      AmongTracked(old(accesses), accesses);
      keys.Add(key);
      TouchMembers(before, key);
    }

    method EvictOldest()
      requires keys.Valid()
      modifies this`entries, keys, keys.contents
      ensures keys.Valid() && Tracked(old(keys.contents))
      ensures var evicted := Evict(old(entries), Currents(old(keys.contents)), capacity);
        entries == evicted.entries && keys.contents == old(keys.contents)[evicted.dropped..]
    {
      ghost var names := Currents(keys.contents);
      assert names[0..] == names;
      ghost var n, size := EvictLoop(names);
      EvictDone(old(entries), names, n, entries);
    }

    /** The local size counter agrees with the map throughout, so the result is that of `Evict`; the keys
        it takes out are left detached. */
    method EvictLoop(ghost names: seq<K>) returns (ghost n: nat, size: int)
      requires keys.Valid() && Named(keys.contents, names) && EvictedSoFar(entries, names, 0, entries)
      modifies this`entries, keys, keys.contents
      ensures keys.Valid() && n <= |names| && keys.contents == old(keys.contents)[n..] && size == |entries|
      ensures Tracked(old(keys.contents))
      ensures EvictedSoFar(old(entries), names, n, entries)
      ensures |entries| <= capacity || n == |names|
    {
      ghost var start, all := entries, keys.contents;
      n := 0;
      size := |entries|;
      var loop := size > capacity;
      LinkedAreTracked();
      while loop
        invariant keys.Valid() && n <= |all| && keys.contents == all[n..] && Within(all[n..], all, [])
        invariant Tracked(all) && size == |entries|
        invariant loop ==> size > capacity
        invariant !loop ==> size <= capacity || n == |all|
        invariant EvictedSoFar(start, names, n, entries)
        decreases |all| - n, loop
      {
        NextOf(all, names, n);
        var key;
        key, size := EvictNext(start, names, n, size, all);
        if key != null {
          loop := size > capacity;
          n := n + 1;
        } else {
          loop := false;
        }
      }
    }

    /** Takes out the oldest key; keys that may be accessed still may be. */
    method TakeOldest(ghost tracked: seq<MapKey<K>>) returns (key: MapKey?<K>)
      requires keys.Valid() && Tracked(tracked)
      modifies keys, keys.contents
      ensures keys.Valid() && Tracked(tracked)
      ensures old(keys.contents) == [] ==> key == null && keys.contents == []
      ensures old(keys.contents) != [] ==>
        key != null && key == old(keys.contents)[0] && Detached(key) && keys.contents == old(keys.contents)[1..]
    {
      ghost var before := keys.contents;
      key := keys.Remove();
      forall i | 0 <= i < |tracked| ensures Trackable(tracked[i]) {
        var k := tracked[i];
        if k in before && k != key {
          assert before == [before[0]] + before[1..];
          assert k in before[1..];
        }
      }
    }

    /** Takes out the oldest key, and its entry if it has one. */
    method EvictNext(ghost start: map<K, V>, ghost names: seq<K>, ghost n: nat, size: int,
        ghost tracked: seq<MapKey<K>>)
        returns (key: MapKey?<K>, left: int)
      requires keys.Valid() && size == |entries| && size > capacity && EvictedSoFar(start, names, n, entries)
      requires keys.contents != [] ==> n < |names| && keys.contents[0].current == names[n]
      requires Tracked(tracked)
      modifies this`entries, keys, keys.contents
      ensures keys.Valid() && left == |entries| && Tracked(tracked)
      ensures old(keys.contents) == [] ==> key == null && keys.contents == [] && entries == old(entries)
      ensures old(keys.contents) != [] ==>
        key == old(keys.contents)[0] && Detached(key) && keys.contents == old(keys.contents)[1..] &&
        entries == old(entries) - {names[n]} &&
        EvictedSoFar(start, names, n + 1, entries)
    {
      left := size;
      key := TakeOldest(tracked);
      if key != null {
        EvictOneMore(start, names, n, entries);
        DropOne(entries, key.current);
        if key.current in entries {
          entries := entries - {key.current};
          left := left - 1;
        }
      }
    }

    static ghost predicate Detached(key: MapKey<K>)
      reads key
    {
      key.previous == null && key.next == null
    }

    static lemma NextOf(all: seq<MapKey<K>>, names: seq<K>, n: nat)
      requires Named(all, names) && n <= |all|
      ensures all[n..] != [] ==> all[n..][0].current == names[n] && all[n..][1..] == all[n + 1..]
      ensures all[n..] != [] ==> Within(all[n + 1..], all, [])
      ensures all[n..] == [] <==> n == |all|
    {}

    static ghost predicate Named(keys: seq<MapKey<K>>, names: seq<K>) {
      |names| == |keys| && forall i :: 0 <= i < |keys| ==> keys[i].current == names[i]
    }

    lemma EvictDone(start: map<K, V>, all: seq<K>, n: nat, now: map<K, V>)
      requires EvictedSoFar(start, all, n, now) && (|now| <= capacity || n == |all|)
      ensures Evict(start, all, capacity) == Eviction(now, n)
    {}

    /** Having dropped `n` keys, what is left to do is to evict from the rest. */
    ghost predicate EvictedSoFar(start: map<K, V>, all: seq<K>, n: nat, now: map<K, V>) {
      && n <= |all|
      && var e := Evict(now, all[n..], capacity);
         Evict(start, all, capacity) == Eviction(e.entries, e.dropped + n)
    }

    lemma EvictOneMore(start: map<K, V>, all: seq<K>, n: nat, now: map<K, V>)
      requires EvictedSoFar(start, all, n, now) && n < |all| && |now| > capacity
      ensures EvictedSoFar(start, all, n + 1, now - {all[n]})
    {
      assert all[n..][0] == all[n] && all[n..][1..] == all[n + 1..];
    }

    static lemma DropOne(m: map<K, V>, k: K)
      ensures k in m ==> |m - {k}| == |m| - 1
      ensures k !in m ==> m - {k} == m
    {
      if k in m { assert m.Keys == (m - {k}).Keys + {k}; }
    }
  }
}
