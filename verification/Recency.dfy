/** Access order and eviction, as functions on sequences and maps. */
module Recency {

  import opened Options

  /** `x` becomes the most recent element. */
  function Touch<T(==)>(s: seq<T>, x: T): seq<T> {
    Without(s, x) + [x]
  }

  function TouchAll<T(==)>(s: seq<T>, xs: seq<T>): seq<T>
    decreases xs
  {
    if xs == [] then s else TouchAll(Touch(s, xs[0]), xs[1..])
  }

  lemma {:induction false} WithoutAbsent<T>(s: seq<T>, x: T)
    requires x !in s
    ensures Without(s, x) == s
  {
    if s == [] {
    } else {
      WithoutAbsent(s[1..], x);
    }
  }

  lemma {:induction false} WithoutAt<T>(s: seq<T>, i: nat)
    requires Distinct(s) && i < |s|
    ensures Without(s, s[i]) == s[..i] + s[i + 1..]
  {
    if i == 0 {
      assert s[0] !in s[1..];
      WithoutAbsent(s[1..], s[0]);
    } else {
      WithoutAt(s[1..], i - 1);
      assert s[1..][i - 1] == s[i] && s[0] != s[i];
    }
  }

  lemma {:induction false} TouchMembers<T>(s: seq<T>, x: T)
    ensures forall y :: y in Touch(s, x) <==> y in s || y == x
    ensures Distinct(s) ==> Distinct(Touch(s, x))
  {
    WithoutMembers(s, x);
  }

  lemma {:induction false} TouchAllMembers<T>(s: seq<T>, xs: seq<T>)
    ensures forall y :: y in TouchAll(s, xs) <==> y in s || y in xs
    decreases xs
  {
    if xs == [] {
    } else {
      TouchMembers(s, xs[0]);
      TouchAllMembers(Touch(s, xs[0]), xs[1..]);
      assert xs == [xs[0]] + xs[1..];
    }
  }

  lemma {:induction false} TouchAllAppend<T>(s: seq<T>, xs: seq<T>, x: T)
    ensures TouchAll(s, xs + [x]) == Touch(TouchAll(s, xs), x)
    decreases xs
  {
    if xs == [] {
      assert xs + [x] == [x] && [x][1..] == [];
    } else {
      assert (xs + [x])[1..] == xs[1..] + [x];
      TouchAllAppend(Touch(s, xs[0]), xs[1..], x);
    }
  }

  // ----- Eviction

  datatype Eviction<K, V> = Eviction(entries: map<K, V>, dropped: nat)

  /** Drops the oldest keys, and their entries, until the map is small enough or no key is left. */
  function Evict<K, V>(m: map<K, V>, keys: seq<K>, capacity: int): (r: Eviction<K, V>)
    ensures r.dropped <= |keys|
  {
    if |m| <= capacity || keys == [] then Eviction(m, 0)
    else
      var r := Evict(m - {keys[0]}, keys[1..], capacity);
      r.(dropped := r.dropped + 1)
  }

  ghost function Members<K>(keys: seq<K>): set<K> {
    set k | k in keys
  }

  /** Exactly the entries of the dropped keys go; it stops as soon as the map fits, and goes on to the
      last key when it does not. */
  lemma {:induction false} EvictResult<K, V>(m: map<K, V>, keys: seq<K>, capacity: int)
    ensures var r := Evict(m, keys, capacity); Evicted(m, keys, capacity, r.entries, r.dropped)
    decreases keys
  {
    if |m| <= capacity || keys == [] {
      assert Members(keys[..0]) == {};
    } else {
      var rest := Evict(m - {keys[0]}, keys[1..], capacity);
      EvictResult(m - {keys[0]}, keys[1..], capacity);
      EvictedOneMore(m, keys, capacity, rest.entries, rest.dropped);
    }
  }

  ghost predicate Evicted<K, V>(m: map<K, V>, keys: seq<K>, capacity: int, left: map<K, V>, n: nat) {
    n <= |keys| && left == m - Members(keys[..n]) && (|left| <= capacity || n == |keys|)
  }

  lemma EvictedOneMore<K, V>(m: map<K, V>, keys: seq<K>, capacity: int, left: map<K, V>, n: nat)
    requires keys != [] && Evicted(m - {keys[0]}, keys[1..], capacity, left, n)
    ensures Evicted(m, keys, capacity, left, n + 1)
  {
    DropPrefix(m, keys, n);
  }

  lemma DropPrefix<K, V>(m: map<K, V>, keys: seq<K>, n: nat)
    requires n < |keys|
    ensures (m - {keys[0]}) - Members(keys[1..][..n]) == m - Members(keys[..n + 1])
  {
    assert keys[..n + 1] == [keys[0]] + keys[1..][..n];
    MembersCons(keys[0], keys[1..][..n]);
    DropTwice(m, keys[0], Members(keys[1..][..n]));
  }

  lemma MembersCons<K>(k: K, keys: seq<K>)
    ensures Members([k] + keys) == {k} + Members(keys)
  {}

  lemma DropTwice<K, V>(m: map<K, V>, k: K, ks: set<K>)
    ensures (m - {k}) - ks == m - ({k} + ks)
  {}

  /** No more is dropped than is needed. */
  lemma {:induction false} EvictKeepsCapacity<K, V>(m: map<K, V>, keys: seq<K>, capacity: int)
    requires |m| >= capacity
    ensures |Evict(m, keys, capacity).entries| >= capacity
    decreases keys
  {
    if |m| > capacity && keys != [] {
      var n := m - {keys[0]};
      assert n.Keys == m.Keys - {keys[0]};
      assert |n.Keys| >= |m.Keys| - 1;
      EvictKeepsCapacity(n, keys[1..], capacity);
    }
  }

  /** Afterwards the map fits, or holds only keys that were never accessed. */
  lemma {:induction false} EvictBound<K, V>(m: map<K, V>, keys: seq<K>, capacity: int)
    ensures var r := Evict(m, keys, capacity);
      |r.entries| <= (if capacity < |m.Keys - Members(keys)| then |m.Keys - Members(keys)| else capacity)
  {
    var r := Evict(m, keys, capacity);
    EvictResult(m, keys, capacity);
    if |r.entries| > capacity {
      assert keys[..r.dropped] == keys;
      assert r.entries.Keys == m.Keys - Members(keys);
    }
  }

  /** A key with a surviving entry has no record older than the oldest record of an evicted key. */
  lemma {:induction false} EvictsOldestFirst<K, V>(m: map<K, V>, keys: seq<K>, capacity: int, i: nat, j: nat)
    requires i < |keys| && j < |keys|
    requires keys[i] in Evict(m, keys, capacity).entries
    requires keys[j] in m && keys[j] !in Evict(m, keys, capacity).entries && keys[j] !in keys[..j]
    ensures j < i
  {
    EvictResult(m, keys, capacity);
    var n := Evict(m, keys, capacity).dropped;
    assert keys[j] in Members(keys[..n]);
    var k :| 0 <= k < n && keys[..n][k] == keys[j];
  }

  lemma {:induction false} FewerAreLeft<K, V>(m: map<K, V>, ks: set<K>)
    ensures |m - ks| <= |m|
  {
    assert (m - ks).Keys == m.Keys - ks;
    assert m.Keys == (m - ks).Keys + (m.Keys * ks);
  }

  /** Without the keys recorded before any of the first `n` records the map is still too large. */
  ghost predicate TooLargeBefore<K, V>(m: map<K, V>, keys: seq<K>, capacity: int, n: nat) {
    n <= |keys| && forall i :: 0 <= i < n ==> |m - Members(keys[..i])| > capacity
  }

  lemma TooLargeOneMore<K, V>(m: map<K, V>, keys: seq<K>, capacity: int, n: nat)
    requires keys != [] && |m| > capacity && TooLargeBefore(m - {keys[0]}, keys[1..], capacity, n)
    ensures TooLargeBefore(m, keys, capacity, n + 1)
  {
    forall i | 0 <= i < n + 1 ensures |m - Members(keys[..i])| > capacity {
      if i == 0 {
        assert Members(keys[..0]) == {};
        NoneDropped(m);
      } else {
        DropPrefix(m, keys, i - 1);
      }
    }
  }

  /** Nothing is dropped that need not be. */
  lemma {:induction false} EvictMinimal<K, V>(m: map<K, V>, keys: seq<K>, capacity: int)
    ensures var r := Evict(m, keys, capacity); TooLargeBefore(m, keys, capacity, r.dropped)
    decreases keys
  {
    if |m| <= capacity || keys == [] {
    } else {
      var rest := Evict(m - {keys[0]}, keys[1..], capacity);
      EvictMinimal(m - {keys[0]}, keys[1..], capacity);
      TooLargeOneMore(m, keys, capacity, rest.dropped);
    }
  }

  /** A record is dropped exactly when, without the keys recorded before it, the map is still too large. */
  lemma {:induction false} DroppedIff<K, V>(m: map<K, V>, keys: seq<K>, capacity: int, i: nat)
    requires i < |keys|
    ensures i < Evict(m, keys, capacity).dropped <==> |m - Members(keys[..i])| > capacity
  {
    var r := Evict(m, keys, capacity);
    EvictResult(m, keys, capacity);
    EvictMinimal(m, keys, capacity);
    DroppedFrom(m, keys, capacity, r.entries, r.dropped, i);
  }

  lemma DroppedFrom<K, V>(m: map<K, V>, keys: seq<K>, capacity: int, left: map<K, V>, n: nat, i: nat)
    requires Evicted(m, keys, capacity, left, n) && TooLargeBefore(m, keys, capacity, n) && i < |keys|
    ensures i < n <==> |m - Members(keys[..i])| > capacity
  {
    if n <= i {
      LongerPrefix(m, keys, n, i);
      FewerAreLeft(left, Members(keys[..i]));
    }
  }

  lemma LongerPrefix<K, V>(m: map<K, V>, keys: seq<K>, n: nat, i: nat)
    requires n <= i <= |keys|
    ensures (m - Members(keys[..n])) - Members(keys[..i]) == m - Members(keys[..i])
  {
    assert keys[..i] == keys[..n] + keys[n..i];
    forall k | k in Members(keys[..n]) ensures k in Members(keys[..i]) {
      var j :| 0 <= j < n && keys[..n][j] == k;
      assert keys[..i][j] == k;
    }
  }

  lemma NoneDropped<K, V>(m: map<K, V>)
    ensures m - {} == m
  {}

  lemma MembersAt<K>(keys: seq<K>, n: nat, i: nat)
    requires n <= |keys| && i < |keys|
    ensures i < n ==> keys[i] in Members(keys[..n])
  {
    if i < n { assert keys[..n][i] == keys[i]; }
  }

  ghost predicate DroppedAt<K, V>(m: map<K, V>, keys: seq<K>, capacity: int, k: K, i: nat) {
    i < |keys| && keys[i] == k && |m - Members(keys[..i])| > capacity
  }

  /** Exactly when the entry of a key is evicted, however recently the key was accessed: one of its
      records comes so early that without the keys recorded before it the map is still too large. */
  lemma {:induction false} EvictedIff<K, V>(m: map<K, V>, keys: seq<K>, capacity: int, k: K)
    requires k in m
    ensures k !in Evict(m, keys, capacity).entries <==> exists i :: DroppedAt(m, keys, capacity, k, i)
  {
    var n := Evict(m, keys, capacity).dropped;
    EvictResult(m, keys, capacity);
    if k !in Evict(m, keys, capacity).entries {
      var i :| 0 <= i < n && keys[..n][i] == k;
      DroppedIff(m, keys, capacity, i);
      assert DroppedAt(m, keys, capacity, k, i);
    } else {
      forall i: nat ensures !DroppedAt(m, keys, capacity, k, i) {
        if i < |keys| && keys[i] == k {
          MembersAt(keys, n, i);
          DroppedIff(m, keys, capacity, i);
        }
      }
    }
  }
}
