/**
  The task scheduler: priority buckets, and the drain protocol that runs them on the event loop.
 */
module Scheduler {
  import opened Options

  datatype Bucket<T> = Bucket(key: int, tasks: seq<T>)

  datatype Arrival<T> = Arrival(task: T, priority: int)

  // ----- What the buckets hold

  /** The strict running minima of the arrivals, smallest first. */
  ghost function Minima<T>(a: seq<Arrival<T>>): seq<int> {
    if a == [] then []
    else
      var m, p := Minima(a[..|a| - 1]), a[|a| - 1].priority;
      if m == [] || p < m[0] then [p] + m else m
  }

  /** The arrivals with priority in [lo, hi), in order; `None` is no upper bound. */
  ghost function Between<T>(a: seq<Arrival<T>>, lo: int, hi: Option<int>): seq<Arrival<T>> {
    if a == [] then []
    else
      var x := a[|a| - 1];
      Between(a[..|a| - 1], lo, hi) + if lo <= x.priority && (hi.Some? ==> x.priority < hi.value) then [x] else []
  }

  ghost function Above(m: seq<int>, i: nat): Option<int> {
    if i + 1 < |m| then Some(m[i + 1]) else None
  }

  ghost function TasksOf<T>(a: seq<Arrival<T>>): seq<T> {
    seq(|a|, i requires 0 <= i < |a| => a[i].task)
  }

  ghost function BucketsOf<T>(a: seq<Arrival<T>>): seq<Bucket<T>> {
    var m := Minima(a);
    seq(|m|, i requires 0 <= i < |m| => Bucket(m[i], TasksOf(Between(a, m[i], Above(m, i)))))
  }

  ghost predicate StrictlyAscending(m: seq<int>) {
    forall i, j :: 0 <= i < j < |m| ==> m[i] < m[j]
  }

  lemma {:induction false} MinimaAscend<T>(a: seq<Arrival<T>>)
    ensures StrictlyAscending(Minima(a))
    ensures a != [] ==> Minima(a) != []
    ensures forall i :: 0 <= i < |a| ==> Minima(a)[0] <= a[i].priority
  {
    if a == [] {
    } else {
      MinimaAscend(a[..|a| - 1]);
      forall i | 0 <= i < |a| ensures Minima(a)[0] <= a[i].priority {
        if i < |a| - 1 { assert a[..|a| - 1][i] == a[i]; }
      }
    }
  }

  lemma {:induction false} NoneBelow<T>(a: seq<Arrival<T>>, lo: int, hi: int)
    requires forall i :: 0 <= i < |a| ==> hi <= a[i].priority
    ensures Between(a, lo, Some(hi)) == []
  {
    if a == [] {
    } else {
      NoneBelow(a[..|a| - 1], lo, hi);
    }
  }

  /** The number of leading buckets whose key is at most the priority. */
  ghost predicate Leading<T>(buckets: seq<Bucket<T>>, priority: int, n: nat) {
    && n <= |buckets|
    && (forall i :: 0 <= i < n ==> buckets[i].key <= priority)
    && (n < |buckets| ==> priority < buckets[n].key)
  }

  ghost function Place<T>(buckets: seq<Bucket<T>>, n: nat, task: T, priority: int): seq<Bucket<T>>
    requires n <= |buckets|
  {
    if n == 0 then [Bucket(priority, [task])] + buckets
    else buckets[n - 1 := Bucket(buckets[n - 1].key, buckets[n - 1].tasks + [task])]
  }

  lemma {:induction false} TasksAppend<T>(a: seq<Arrival<T>>, x: Arrival<T>)
    ensures TasksOf(a + [x]) == TasksOf(a) + [x.task]
  {}

  lemma {:induction false} BetweenLast<T>(a: seq<Arrival<T>>, x: Arrival<T>, lo: int, hi: Option<int>)
    ensures Between(a + [x], lo, hi) ==
      Between(a, lo, hi) + if lo <= x.priority && (hi.Some? ==> x.priority < hi.value) then [x] else []
    ensures Minima(a + [x]) ==
      if Minima(a) == [] || x.priority < Minima(a)[0] then [x.priority] + Minima(a) else Minima(a)
  {
    assert (a + [x])[..|a|] == a;
  }

  /** Placing a task keeps the buckets what the arrivals say. */
  lemma {:induction false} Placed<T>(a: seq<Arrival<T>>, x: Arrival<T>, n: nat)
    requires Leading(BucketsOf(a), x.priority, n)
    ensures Place(BucketsOf(a), n, x.task, x.priority) == BucketsOf(a + [x])
  {
    var m, b, c := Minima(a), BucketsOf(a), BucketsOf(a + [x]);
    MinimaAscend(a);
    BetweenLast(a, x, 0, None);
    var r := Place(b, n, x.task, x.priority);
    assert n == 0 <==> m == [] || x.priority < m[0] by {
      assert m != [] ==> b[0].key == m[0];
    }
    if n == 0 {
      PlacedFirst(a, x);
    } else {
      forall i | 0 <= i < |m| ensures r[i] == c[i] {
        PlacedAt(a, x, n, i);
      }
    }
  }

  lemma {:induction false} PlacedFirst<T>(a: seq<Arrival<T>>, x: Arrival<T>)
    requires Minima(a) == [] || x.priority < Minima(a)[0]
    ensures BucketsOf(a + [x]) == [Bucket(x.priority, [x.task])] + BucketsOf(a)
  {
    var b, c := BucketsOf(a), BucketsOf(a + [x]);
    BetweenLast(a, x, 0, None);
    assert Minima(a + [x]) == [x.priority] + Minima(a);
    PlacedOnTop(a, x);
    forall i | 0 <= i < |Minima(a)| ensures c[i + 1] == b[i] {
      PlacedBelow(a, x, i);
    }
    ConsIff(c[0], b, c);
  }

  lemma ConsIff<S>(x: S, b: seq<S>, c: seq<S>)
    requires |c| == |b| + 1 && c[0] == x && forall i :: 0 <= i < |b| ==> c[i + 1] == b[i]
    ensures c == [x] + b
  {}

  lemma {:induction false} PlacedOnTop<T>(a: seq<Arrival<T>>, x: Arrival<T>)
    requires Minima(a) == [] || x.priority < Minima(a)[0]
    requires Minima(a + [x]) == [x.priority] + Minima(a)
    ensures BucketsOf(a + [x])[0] == Bucket(x.priority, [x.task])
  {
    var m, hi := Minima(a), Above([x.priority] + Minima(a), 0);
    MinimaAscend(a);
    BetweenLast(a, x, x.priority, hi);
    if m != [] { NoneBelow(a, x.priority, m[0]); } else { assert a == []; }
    assert TasksOf([x]) == [x.task];
  }

  lemma {:induction false} PlacedBelow<T>(a: seq<Arrival<T>>, x: Arrival<T>, i: nat)
    requires i < |Minima(a)| && x.priority < Minima(a)[0]
    requires Minima(a + [x]) == [x.priority] + Minima(a)
    ensures BucketsOf(a + [x])[i + 1] == BucketsOf(a)[i]
  {
    var m, n := Minima(a), Minima(a + [x]);
    MinimaAscend(a);
    BetweenLast(a, x, m[i], Above(m, i));
    assert n[i + 1] == m[i] && Above(n, i + 1) == Above(m, i);
    assert m[0] <= m[i];
  }

  lemma {:induction false} PlacedAt<T>(a: seq<Arrival<T>>, x: Arrival<T>, n: nat, i: nat)
    requires Leading(BucketsOf(a), x.priority, n) && n > 0 && i < |Minima(a)|
    requires Minima(a + [x]) == Minima(a)
    ensures BucketsOf(a + [x])[i] == Place(BucketsOf(a), n, x.task, x.priority)[i]
  {
    var m := Minima(a);
    MinimaAscend(a);
    BetweenLast(a, x, m[i], Above(m, i));
    TasksAppend(Between(a, m[i], Above(m, i)), x);
    assert BucketsOf(a)[n - 1].key == m[n - 1];
    if n < |m| { assert BucketsOf(a)[n].key == m[n]; }
    if i < n - 1 { assert m[i + 1] <= m[n - 1]; }
    if i >= n { assert m[n] <= m[i]; }
  }

  class PriorityBuckets<T> {
    var buckets: seq<Bucket<T>>
    /** Everything scheduled since the buckets were last taken. */
    ghost var arrivals: seq<Arrival<T>>

    ghost predicate Valid()
      reads this
    {
      buckets == BucketsOf(arrivals)
    }

    constructor ()
      ensures Valid() && arrivals == []
    {
      buckets, arrivals := [], [];
    }

    /** Appends to the last bucket whose key is at most the priority; opens a new one when there is none. */
    method ScheduleTask(task: T, priority: int)
      requires Valid()
      modifies this
      ensures Valid() && arrivals == old(arrivals) + [Arrival(task, priority)]
    {
      var bucket, index := Find(buckets, priority);
      Placed(arrivals, Arrival(task, priority), index);
      match bucket {
        case Some(i) =>
          buckets := buckets[i := Bucket(buckets[i].key, buckets[i].tasks + [task])];
        case None =>
          var newBuckets := Insert(buckets, index, Bucket(priority, [task]));
          assert newBuckets == [Bucket(priority, [task])] + buckets;
          buckets := newBuckets;
      }
      arrivals := arrivals + [Arrival(task, priority)];
    }

    /** The last bucket whose key is at most the priority, and where the scan stopped. */
    static method Find(buckets: seq<Bucket<T>>, priority: int) returns (bucket: Option<nat>, index: nat)
      ensures Leading(buckets, priority, index)
      ensures bucket == if index == 0 then None else Some(index - 1)
    {
      bucket := None;
      index := 0;
      while index < |buckets|
        invariant index <= |buckets|
        invariant forall i :: 0 <= i < index ==> buckets[i].key <= priority
        invariant bucket == if index == 0 then None else Some(index - 1)
      {
        if buckets[index].key <= priority {
          bucket := Some(index);
        } else {
          break;
        }
        index := index + 1;
      }
    }

    static method Insert(buckets: seq<Bucket<T>>, index: nat, bucket: Bucket<T>) returns (newBuckets: seq<Bucket<T>>)
      requires index <= |buckets|
      ensures newBuckets == buckets[..index] + [bucket] + buckets[index..]
    {
      newBuckets := [];
      for i := 0 to index
        invariant newBuckets == buckets[..i]
      {
        newBuckets := newBuckets + [buckets[i]];
      }
      newBuckets := newBuckets + [bucket];
      for i := index to |buckets|
        invariant newBuckets == buckets[..index] + [bucket] + buckets[index..i]
      {
        newBuckets := newBuckets + [buckets[i]];
      }
    }

    /** Takes all tasks, in the order in which a drain runs them. */
    method Take() returns (queue: seq<T>)
      requires Valid()
      modifies this
      ensures Valid() && arrivals == []
      ensures queue == TasksOf(Drained(old(arrivals)))
    {
      queue := [];
      for i := 0 to |buckets|
        invariant unchanged(this) && |buckets| == |Minima(arrivals)|
        invariant queue == TasksOf(DrainedUpTo(arrivals, Minima(arrivals), i))
      {
        DrainNext(arrivals, Minima(arrivals), i);
        queue := queue + buckets[i].tasks;
      }
      buckets := [];
      arrivals := [];
    }
  }

  // ----- The order in which a drain runs the tasks

  /** The arrivals of the bucket whose key is the running minimum at `i`. */
  ghost function Slice<T>(a: seq<Arrival<T>>, m: seq<int>, i: nat): seq<Arrival<T>>
    requires i < |m|
  {
    Between(a, m[i], Above(m, i))
  }

  ghost function DrainedUpTo<T>(a: seq<Arrival<T>>, m: seq<int>, n: nat): seq<Arrival<T>>
    requires n <= |m|
  {
    if n == 0 then [] else DrainedUpTo(a, m, n - 1) + Slice(a, m, n - 1)
  }

  ghost function Drained<T>(a: seq<Arrival<T>>): seq<Arrival<T>> {
    DrainedUpTo(a, Minima(a), |Minima(a)|)
  }

  lemma {:induction false} TasksConcat<T>(a: seq<Arrival<T>>, b: seq<Arrival<T>>)
    ensures TasksOf(a + b) == TasksOf(a) + TasksOf(b)
  {}

  lemma {:induction false} DrainNext<T>(a: seq<Arrival<T>>, m: seq<int>, i: nat)
    requires i < |m|
    ensures TasksOf(DrainedUpTo(a, m, i + 1)) == TasksOf(DrainedUpTo(a, m, i)) + TasksOf(Slice(a, m, i))
  {
    TasksConcat(DrainedUpTo(a, m, i), Slice(a, m, i));
  }

  ghost predicate InRange(p: int, lo: int, hi: Option<int>) {
    lo <= p && (hi.Some? ==> p < hi.value)
  }

  /** The bucket of a priority: the last running minimum that is at most the priority. */
  ghost function KeyIndex(m: seq<int>, p: int): (i: nat)
    requires m != [] && m[0] <= p
    ensures i < |m| && m[i] <= p
  {
    if m[|m| - 1] <= p then |m| - 1 else KeyIndex(m[..|m| - 1], p)
  }

  lemma {:induction false} KeyIndexInRange(m: seq<int>, p: int, i: nat)
    requires m != [] && m[0] <= p && StrictlyAscending(m) && i < |m|
    ensures InRange(p, m[i], Above(m, i)) <==> i == KeyIndex(m, p)
  {
    var l := |m| - 1;
    if p < m[l] {
      var n := m[..l];
      assert StrictlyAscending(n);
      if i < l {
        KeyIndexInRange(n, p, i);
        assert i + 1 < l ==> Above(m, i) == Above(n, i);
      }
    } else if i < l {
      assert m[i + 1] <= m[l];
    }
  }

  lemma {:induction false} CountLast<S>(s: seq<S>, y: S, x: S)
    ensures Count(s + [y], x) == Count(s, x) + if y == x then 1 else 0
    ensures Count(s + [], x) == Count(s, x)
  {
    assert (s + [y])[..|s|] == s;
    assert s + [] == s;
  }

  lemma {:induction false} CountBetween<T>(a: seq<Arrival<T>>, lo: int, hi: Option<int>, x: Arrival<T>)
    ensures Count(Between(a, lo, hi), x) == if InRange(x.priority, lo, hi) then Count(a, x) else 0
  {
    if a == [] {
    } else {
      var b, y := a[..|a| - 1], a[|a| - 1];
      var c := Between(b, lo, hi);
      assert Between(a, lo, hi) == c + if InRange(y.priority, lo, hi) then [y] else [];
      CountLast(c, y, x);
      CountBetween(b, lo, hi, x);
    }
  }

  lemma {:induction false} InSlice(m: seq<int>, p: int, i: nat)
    requires StrictlyAscending(m) && i < |m|
    ensures InRange(p, m[i], Above(m, i)) <==> m[0] <= p && KeyIndex(m, p) == i
  {
    if m[0] <= p {
      KeyIndexInRange(m, p, i);
    } else {
      assert m[0] <= m[i];
    }
  }

  /** How often a task occurs in the buckets up to `n`. */
  ghost function CountUpTo(m: seq<int>, n: nat, p: int, count: nat): nat
    requires m != []
  {
    if m[0] <= p && KeyIndex(m, p) < n then count else 0
  }

  lemma {:induction false} CountSlice<T>(a: seq<Arrival<T>>, m: seq<int>, n: nat, x: Arrival<T>)
    requires n < |m| && StrictlyAscending(m)
    ensures Count(Slice(a, m, n), x) + CountUpTo(m, n, x.priority, Count(a, x)) ==
      CountUpTo(m, n + 1, x.priority, Count(a, x))
  {
    CountBetween(a, m[n], Above(m, n), x);
    InSlice(m, x.priority, n);
  }

  lemma {:induction false} CountDrained<T>(a: seq<Arrival<T>>, m: seq<int>, n: nat, x: Arrival<T>)
    requires n <= |m| && m != [] && StrictlyAscending(m)
    ensures Count(DrainedUpTo(a, m, n), x) == CountUpTo(m, n, x.priority, Count(a, x))
  {
    if n == 0 {
    } else {
      var d, s := DrainedUpTo(a, m, n - 1), Slice(a, m, n - 1);
      assert DrainedUpTo(a, m, n) == d + s;
      CountAppend(d, s, x);
      CountSlice(a, m, n - 1, x);
      CountDrained(a, m, n - 1, x);
    }
  }

  /** No task is lost or duplicated. */
  lemma {:induction false} DrainKeepsTasks<T>(a: seq<Arrival<T>>)
    ensures multiset(Drained(a)) == multiset(a)
  {
    if a == [] {
      assert Drained(a) == [];
    } else {
      MinimaAscend(a);
      forall x ensures multiset(Drained(a))[x] == multiset(a)[x] {
        CountDrained(a, Minima(a), |Minima(a)|, x);
        CountIsMultiplicity(a, x);
        CountIsMultiplicity(Drained(a), x);
        if x in a {
          var i :| 0 <= i < |a| && a[i] == x;
          assert Minima(a)[0] <= x.priority;
        }
      }
      SameCounts(multiset(Drained(a)), multiset(a));
    }
  }

  ghost predicate AllInRange<T>(a: seq<Arrival<T>>, lo: int, hi: Option<int>) {
    forall i :: 0 <= i < |a| ==> InRange(a[i].priority, lo, hi)
  }

  lemma {:induction false} BetweenInRange<T>(a: seq<Arrival<T>>, lo: int, hi: Option<int>)
    ensures AllInRange(Between(a, lo, hi), lo, hi)
  {
    if a == [] {
    } else {
      BetweenInRange(a[..|a| - 1], lo, hi);
    }
  }

  lemma {:induction false} BetweenAppend<T>(a: seq<Arrival<T>>, b: seq<Arrival<T>>, lo: int, hi: Option<int>)
    ensures Between(a + b, lo, hi) == Between(a, lo, hi) + Between(b, lo, hi)
  {
    if b == [] {
      assert a + b == a;
    } else {
      var l := |b| - 1;
      assert (a + b)[..|a + b| - 1] == a + b[..l] && (a + b)[|a + b| - 1] == b[l];
      BetweenAppend(a, b[..l], lo, hi);
    }
  }

  ghost predicate Inside(lo: int, hi: Option<int>, lo': int, hi': Option<int>) {
    forall p :: InRange(p, lo, hi) ==> InRange(p, lo', hi')
  }

  ghost predicate Outside(lo: int, hi: Option<int>, lo': int, hi': Option<int>) {
    forall p :: InRange(p, lo, hi) ==> !InRange(p, lo', hi')
  }

  /** Filtering twice: a range inside the first keeps its arrivals, a range outside it none. */
  lemma {:induction false} BetweenTwice<T>(a: seq<Arrival<T>>, lo: int, hi: Option<int>, lo': int, hi': Option<int>)
    requires Inside(lo', hi', lo, hi) || Outside(lo', hi', lo, hi)
    ensures Between(Between(a, lo, hi), lo', hi') == if Inside(lo', hi', lo, hi) then Between(a, lo', hi') else []
  {
    if a == [] {
    } else {
      var b, x := a[..|a| - 1], a[|a| - 1];
      BetweenTwice(b, lo, hi, lo', hi');
      assert a == b + [x];
      BetweenLast(b, x, lo, hi);
      BetweenLast(b, x, lo', hi');
      if InRange(x.priority, lo, hi) {
        BetweenLast(Between(b, lo, hi), x, lo', hi');
        assert Outside(lo', hi', lo, hi) ==> !InRange(x.priority, lo', hi');
      } else {
        assert Between(a, lo, hi) == Between(b, lo, hi);
        assert Inside(lo', hi', lo, hi) ==> !InRange(x.priority, lo', hi');
      }
    }
  }

  /** A range that lies in one bucket. */
  ghost predicate WithinBucket(m: seq<int>, i: nat, lo: int, hi: Option<int>) {
    i < |m| && Inside(lo, hi, m[i], Above(m, i))
  }

  lemma {:induction false} OutsideOthers(m: seq<int>, i: nat, n: nat, lo: int, hi: Option<int>)
    requires StrictlyAscending(m) && WithinBucket(m, i, lo, hi) && n < |m| && n != i
    ensures Outside(lo, hi, m[n], Above(m, n))
  {
    forall p | InRange(p, lo, hi) ensures !InRange(p, m[n], Above(m, n)) {
      assert InRange(p, m[i], Above(m, i));
      InSlice(m, p, i);
      InSlice(m, p, n);
    }
  }

  lemma {:induction false} BothSides(lo: int, hi: Option<int>, lo': int, hi': Option<int>, p: int)
    requires Inside(lo, hi, lo', hi') && Outside(lo, hi, lo', hi')
    ensures !InRange(p, lo, hi)
  {}

  lemma {:induction false} NoneInEmptyRange<T>(a: seq<Arrival<T>>, lo: int, hi: Option<int>)
    requires forall p :: !InRange(p, lo, hi)
    ensures Between(a, lo, hi) == []
  {
    if a == [] {
    } else {
      NoneInEmptyRange(a[..|a| - 1], lo, hi);
      assert !InRange(a[|a| - 1].priority, lo, hi);
    }
  }

  lemma {:induction false} SliceAgain<T>(a: seq<Arrival<T>>, m: seq<int>, n: nat, i: nat, lo: int, hi: Option<int>)
    requires StrictlyAscending(m) && n < |m| && WithinBucket(m, i, lo, hi)
    ensures Between(Slice(a, m, n), lo, hi) == if i == n then Between(a, lo, hi) else []
  {
    if i != n {
      OutsideOthers(m, i, n, lo, hi);
      if Inside(lo, hi, m[n], Above(m, n)) {
        forall p ensures !InRange(p, lo, hi) { BothSides(lo, hi, m[n], Above(m, n), p); }
        NoneInEmptyRange(a, lo, hi);
      }
    }
    BetweenTwice(a, m[n], Above(m, n), lo, hi);
  }

  lemma {:induction false} BetweenNone<T>(a: seq<Arrival<T>>, b: seq<Arrival<T>>, lo: int, hi: Option<int>)
    ensures Between(b, lo, hi) == [] ==> Between(a + b, lo, hi) == Between(a, lo, hi)
    ensures Between(a, lo, hi) == [] ==> Between(a + b, lo, hi) == Between(b, lo, hi)
  {
    BetweenAppend(a, b, lo, hi);
  }

  lemma {:induction false} BetweenEmpty<T>(a: seq<Arrival<T>>, b: seq<Arrival<T>>, lo: int, hi: Option<int>)
    requires Between(a, lo, hi) == [] && Between(b, lo, hi) == []
    ensures Between(a + b, lo, hi) == []
  {
    BetweenNone(a, b, lo, hi);
  }

  lemma {:induction false} NotInSlice<T>(
      a: seq<Arrival<T>>, m: seq<int>, n: nat, i: nat, lo: int, hi: Option<int>, s: seq<Arrival<T>>)
    requires StrictlyAscending(m) && n < |m| && WithinBucket(m, i, lo, hi) && n != i && s == Slice(a, m, n)
    ensures Between(s, lo, hi) == []
  {
    SliceAgain(a, m, n, i, lo, hi);
  }

  lemma {:induction false} EarlierBuckets<T>(a: seq<Arrival<T>>, m: seq<int>, n: nat, i: nat, lo: int, hi: Option<int>)
    requires n <= i < |m| && StrictlyAscending(m) && WithinBucket(m, i, lo, hi)
    ensures Between(DrainedUpTo(a, m, n), lo, hi) == []
  {
    if n == 0 {
    } else {
      var d, s := DrainedUpTo(a, m, n - 1), Slice(a, m, n - 1);
      assert DrainedUpTo(a, m, n) == d + s;
      EarlierBuckets(a, m, n - 1, i, lo, hi);
      NotInSlice(a, m, n - 1, i, lo, hi, s);
      BetweenEmpty(d, s, lo, hi);
    }
  }

  lemma {:induction false} StableUpTo<T>(a: seq<Arrival<T>>, m: seq<int>, n: nat, i: nat, lo: int, hi: Option<int>)
    requires i < n <= |m| && StrictlyAscending(m) && WithinBucket(m, i, lo, hi)
    ensures Between(DrainedUpTo(a, m, n), lo, hi) == Between(a, lo, hi)
  {
    var last: nat := n - 1;
    var d, s := DrainedUpTo(a, m, last), Slice(a, m, last);
    assert DrainedUpTo(a, m, n) == d + s;
    SliceAgain(a, m, last, i, lo, hi);
    BetweenNone(d, s, lo, hi);
    if i == last {
      EarlierBuckets(a, m, last, i, lo, hi);
    } else {
      StableUpTo(a, m, last, i, lo, hi);
    }
  }

  /** Within a bucket tasks keep their order of arrival; in particular equal priorities are first in,
      first out. */
  lemma {:induction false} DrainIsStable<T>(a: seq<Arrival<T>>, i: nat, lo: int, hi: Option<int>)
    requires WithinBucket(Minima(a), i, lo, hi)
    ensures Between(Drained(a), lo, hi) == Between(a, lo, hi)
  {
    MinimaAscend(a);
    StableUpTo(a, Minima(a), |Minima(a)|, i, lo, hi);
  }

  lemma {:induction false} EqualPrioritiesAreFifo<T>(a: seq<Arrival<T>>, p: int)
    ensures Between(Drained(a), p, Some(p + 1)) == Between(a, p, Some(p + 1))
  {
    if a == [] {
      assert Drained(a) == [];
    } else if p < Minima(a)[0] {
      MinimaAscend(a);
      NoneBelow(a, p, p + 1);
      NothingBelowMinimum(a, Minima(a), |Minima(a)|, p);
    } else {
      MinimaAscend(a);
      var k := KeyIndex(Minima(a), p);
      KeyIndexInRange(Minima(a), p, k);
      DrainIsStable(a, k, p, Some(p + 1));
    }
  }

  lemma {:induction false} NothingBelowInSlice<T>(a: seq<Arrival<T>>, m: seq<int>, n: nat, p: int)
    requires n < |m| && StrictlyAscending(m) && p < m[0]
    ensures Between(Slice(a, m, n), p, Some(p + 1)) == []
  {
    assert m[0] <= m[n];
    assert Outside(p, Some(p + 1), m[n], Above(m, n));
    assert InRange(p, p, Some(p + 1)) && !InRange(p, m[n], Above(m, n));
    BetweenTwice(a, m[n], Above(m, n), p, Some(p + 1));
  }

  lemma {:induction false} NothingBelowMinimum<T>(a: seq<Arrival<T>>, m: seq<int>, n: nat, p: int)
    requires n <= |m| && m != [] && StrictlyAscending(m) && p < m[0]
    ensures Between(DrainedUpTo(a, m, n), p, Some(p + 1)) == []
  {
    if n == 0 {
    } else {
      var d, s := DrainedUpTo(a, m, n - 1), Slice(a, m, n - 1);
      assert DrainedUpTo(a, m, n) == d + s;
      NothingBelowMinimum(a, m, n - 1, p);
      NothingBelowInSlice(a, m, n - 1, p);
      BetweenEmpty(d, s, p, Some(p + 1));
    }
  }

  ghost function Key(m: seq<int>, p: int): int {
    if m == [] || p < m[0] then p else m[KeyIndex(m, p)]
  }

  ghost predicate SortedByKey<T>(m: seq<int>, a: seq<Arrival<T>>) {
    forall i, j :: 0 <= i <= j < |a| ==> Key(m, a[i].priority) <= Key(m, a[j].priority)
  }

  ghost predicate KeysAtMost<T>(m: seq<int>, a: seq<Arrival<T>>, k: int) {
    forall i :: 0 <= i < |a| ==> Key(m, a[i].priority) <= k
  }

  ghost predicate KeysAre<T>(m: seq<int>, a: seq<Arrival<T>>, k: int) {
    forall i :: 0 <= i < |a| ==> Key(m, a[i].priority) == k
  }

  lemma {:induction false} BucketKeys<T>(a: seq<Arrival<T>>, m: seq<int>, n: nat)
    requires n < |m| && StrictlyAscending(m)
    ensures KeysAre(m, Slice(a, m, n), m[n])
  {
    var b := Slice(a, m, n);
    BetweenInRange(a, m[n], Above(m, n));
    forall i | 0 <= i < |b| ensures Key(m, b[i].priority) == m[n] {
      InSlice(m, b[i].priority, n);
    }
  }

  lemma {:induction false} SortedByKeyAppend<T>(m: seq<int>, a: seq<Arrival<T>>, b: seq<Arrival<T>>, k: int)
    requires SortedByKey(m, a) && KeysAtMost(m, a, k)
    requires KeysAre(m, b, k)
    ensures SortedByKey(m, a + b) && KeysAtMost(m, a + b, k)
  {}

  lemma {:induction false} SortedByKeyUpTo<T>(a: seq<Arrival<T>>, m: seq<int>, n: nat)
    requires n <= |m| && StrictlyAscending(m)
    ensures SortedByKey(m, DrainedUpTo(a, m, n))
    ensures n > 0 ==> KeysAtMost(m, DrainedUpTo(a, m, n), m[n - 1])
  {
    if n == 0 {
    } else {
      SortedByKeyUpTo(a, m, n - 1);
      BucketKeys(a, m, n - 1);
      assert n > 1 ==> m[n - 2] < m[n - 1];
      SortedByKeyAppend(m, DrainedUpTo(a, m, n - 1), Slice(a, m, n - 1), m[n - 1]);
    }
  }

  /** A drain runs the buckets in ascending order of their keys. With `DrainKeepsTasks` and
      `DrainIsStable` this makes it the stable sort of the arrivals by key. */
  lemma {:induction false} DrainSortedByKey<T>(a: seq<Arrival<T>>)
    ensures SortedByKey(Minima(a), Drained(a))
  {
    MinimaAscend(a);
    SortedByKeyUpTo(a, Minima(a), |Minima(a)|);
  }

  lemma AscendingIndex(m: seq<int>, i: nat, j: nat)
    requires StrictlyAscending(m) && i < |m| && j < |m| && m[i] < m[j]
    ensures i < j
  {}

  /** A smaller bucket key means a priority below the larger key. */
  lemma {:induction false} SmallerKey<T>(a: seq<Arrival<T>>, early: int, late: int)
    requires a != [] && Minima(a) != [] && Minima(a)[0] <= early && Minima(a)[0] <= late
    requires Key(Minima(a), late) < Key(Minima(a), early)
    ensures late < Key(Minima(a), early) <= early
  {
    var m := Minima(a);
    MinimaAscend(a);
    var i, j := KeyIndex(m, late), KeyIndex(m, early);
    KeyIndexInRange(m, late, i);
    AscendingIndex(m, i, j);
    assert m[i + 1] <= m[j];
  }

  lemma {:induction false} FilterHas<T>(a: seq<Arrival<T>>, lo: int, hi: Option<int>, u: nat) returns (x: nat)
    requires u < |a| && InRange(a[u].priority, lo, hi)
    ensures x < |Between(a, lo, hi)| && Between(a, lo, hi)[x] == a[u]
  {
    var n := |a| - 1;
    if u == n {
      x := |Between(a[..n], lo, hi)|;
    } else {
      x := FilterHas(a[..n], lo, hi, u);
    }
  }

  lemma {:induction false} FilterKeepsOrder<T>(a: seq<Arrival<T>>, lo: int, hi: Option<int>, u: nat, v: nat)
      returns (x: nat, y: nat)
    requires u < v < |a| && InRange(a[u].priority, lo, hi) && InRange(a[v].priority, lo, hi)
    ensures x < y < |Between(a, lo, hi)| && Between(a, lo, hi)[x] == a[u] && Between(a, lo, hi)[y] == a[v]
  {
    var n := |a| - 1;
    if v == n {
      x := FilterHas(a[..n], lo, hi, u);
      y := |Between(a[..n], lo, hi)|;
    } else {
      x, y := FilterKeepsOrder(a[..n], lo, hi, u, v);
    }
  }

  lemma {:induction false} FilterMembers<T>(a: seq<Arrival<T>>, lo: int, hi: Option<int>)
    ensures forall x :: x in Between(a, lo, hi) ==> x in a
  {
    if a == [] {
    } else {
      FilterMembers(a[..|a| - 1], lo, hi);
    }
  }

  lemma {:induction false} FilterDistinct<T>(a: seq<Arrival<T>>, lo: int, hi: Option<int>)
    requires Distinct(a)
    ensures Distinct(Between(a, lo, hi))
  {
    if a == [] {
    } else {
      var n := |a| - 1;
      FilterDistinct(a[..n], lo, hi);
      FilterMembers(a[..n], lo, hi);
      assert a[n] !in a[..n];
    }
  }

  lemma SamePositions<S>(s: seq<S>, x: nat, y: nat, u: nat, v: nat)
    requires Distinct(s) && x < |s| && y < |s| && u < |s| && v < |s| && s[x] == s[v] && s[y] == s[u]
    ensures x == v && y == u
  {}

  /** Tasks of one bucket run in the order of their arrival. */
  lemma {:induction false} SameBucketInOrder<T>(a: seq<Arrival<T>>, i: nat, j: nat, p: nat, q: nat)
    requires Distinct(a) && i < j < |a| && p < |Drained(a)| && q < |Drained(a)|
    requires Drained(a)[p] == a[j] && Drained(a)[q] == a[i]
    requires Key(Minima(a), a[i].priority) == Key(Minima(a), a[j].priority)
    ensures q < p
  {
    var m, d := Minima(a), Drained(a);
    MinimaAscend(a);
    var b := KeyIndex(m, a[i].priority);
    SameKeySameIndex(m, a[i].priority, a[j].priority);
    var lo, hi := m[b], Above(m, b);
    KeyIndexInRange(m, a[i].priority, b);
    KeyIndexInRange(m, a[j].priority, b);
    DrainIsStable(a, b, lo, hi);
    FilterDistinct(a, lo, hi);
    var u, v := FilterKeepsOrder(a, lo, hi, i, j);
    if p < q {
      var x, y := FilterKeepsOrder(d, lo, hi, p, q);
      SamePositions(Between(a, lo, hi), x, y, u, v);
    }
  }

  lemma AscendingInjective(m: seq<int>, i: nat, j: nat)
    requires StrictlyAscending(m) && i < |m| && j < |m| && m[i] == m[j]
    ensures i == j
  {}

  lemma {:induction false} SameKeySameIndex(m: seq<int>, p: int, q: int)
    requires m != [] && StrictlyAscending(m) && m[0] <= p && m[0] <= q && Key(m, p) == Key(m, q)
    ensures KeyIndex(m, p) == KeyIndex(m, q)
  {
    AscendingInjective(m, KeyIndex(m, p), KeyIndex(m, q));
  }

  lemma {:induction false} DrainedSomewhere<T>(a: seq<Arrival<T>>, i: nat) returns (p: nat)
    requires i < |a|
    ensures p < |Drained(a)| && Drained(a)[p] == a[i]
  {
    DrainKeepsTasks(a);
    assert a[i] in multiset(Drained(a));
    p :| 0 <= p < |Drained(a)| && Drained(a)[p] == a[i];
  }

  /** The later of two arrivals runs first. */
  ghost predicate Overtakes<T>(a: seq<Arrival<T>>, early: Arrival<T>, late: Arrival<T>) {
    exists p, q :: 0 <= p < q < |Drained(a)| && Drained(a)[p] == late && Drained(a)[q] == early
  }

  /** A later task overtakes an earlier one exactly when its priority is below the key of the earlier one's
      bucket. */
  lemma {:induction false} OvertakesIff<T>(a: seq<Arrival<T>>, i: nat, j: nat)
    requires Distinct(a) && i < j < |a|
    ensures Overtakes(a, a[i], a[j]) <==> a[j].priority < Key(Minima(a), a[i].priority)
  {
    var m, d := Minima(a), Drained(a);
    MinimaAscend(a);
    DrainSortedByKey(a);
    KeyAtMost(m, a[j].priority);
    if Overtakes(a, a[i], a[j]) {
      var p, q :| 0 <= p < q < |d| && d[p] == a[j] && d[q] == a[i];
      assert Key(m, d[p].priority) <= Key(m, d[q].priority);
      if Key(m, a[j].priority) == Key(m, a[i].priority) {
        SameBucketInOrder(a, i, j, p, q);
      } else {
        SmallerKey(a, a[i].priority, a[j].priority);
      }
    } else {
      var p := DrainedSomewhere(a, j);
      var q := DrainedSomewhere(a, i);
      assert !(p < q);
      assert d[q] != d[p];
      assert Key(m, d[q].priority) <= Key(m, d[p].priority);
    }
  }

  lemma {:induction false} KeyAtMost(m: seq<int>, p: int)
    requires m != [] && m[0] <= p
    ensures Key(m, p) <= p
  {}

  ghost predicate SortedByPriority<T>(a: seq<Arrival<T>>) {
    forall i, j :: 0 <= i < j < |a| ==> a[i].priority <= a[j].priority
  }

  ghost predicate PrioritiesAtMost<T>(a: seq<Arrival<T>>, p: int) {
    forall i :: 0 <= i < |a| ==> a[i].priority <= p
  }

  lemma SortedAppend<T>(a: seq<Arrival<T>>, b: seq<Arrival<T>>, p: int)
    requires PrioritiesAtMost(a, p)
    requires forall i :: 0 <= i < |b| ==> p <= b[i].priority
    ensures SortedByPriority(a + b) <==> SortedByPriority(a) && SortedByPriority(b)
  {
    var c := a + b;
    assert forall i :: 0 <= i < |a| ==> c[i] == a[i];
    assert forall i :: 0 <= i < |b| ==> c[|a| + i] == b[i];
    if SortedByPriority(c) {
      forall i, j | 0 <= i < j < |b| ensures b[i].priority <= b[j].priority {
        assert c[|a| + i].priority <= c[|a| + j].priority;
      }
    }
  }

  ghost predicate BucketSorted<T>(a: seq<Arrival<T>>, m: seq<int>, i: nat)
    requires i < |m|
  {
    SortedByPriority(Slice(a, m, i))
  }

  ghost predicate BucketsSorted<T>(a: seq<Arrival<T>>, m: seq<int>, n: nat)
    requires n <= |m|
  {
    forall i :: 0 <= i < n ==> BucketSorted(a, m, i)
  }

  lemma {:induction false} DrainedBelow<T>(a: seq<Arrival<T>>, m: seq<int>, n: nat)
    requires n < |m| && StrictlyAscending(m)
    ensures PrioritiesAtMost(DrainedUpTo(a, m, n), m[n])
  {
    if n == 0 {
    } else {
      DrainedBelow(a, m, n - 1);
      BetweenInRange(a, m[n - 1], Above(m, n - 1));
      var d, s := DrainedUpTo(a, m, n - 1), Slice(a, m, n - 1);
      assert DrainedUpTo(a, m, n) == d + s && m[n - 1] < m[n];
    }
  }

  lemma {:induction false} SortedIffUpTo<T>(a: seq<Arrival<T>>, m: seq<int>, n: nat)
    requires n <= |m| && StrictlyAscending(m)
    ensures SortedByPriority(DrainedUpTo(a, m, n)) <==> BucketsSorted(a, m, n)
  {
    if n == 0 {
    } else {
      SortedIffUpTo(a, m, n - 1);
      DrainedBelow(a, m, n - 1);
      SortedBucketMore(a, m, n - 1, DrainedUpTo(a, m, n - 1));
    }
  }

  lemma SortedBucketMore<T>(a: seq<Arrival<T>>, m: seq<int>, n: nat, d: seq<Arrival<T>>)
    requires n < |m| && StrictlyAscending(m) && PrioritiesAtMost(d, m[n])
    requires SortedByPriority(d) <==> BucketsSorted(a, m, n)
    ensures SortedByPriority(d + Slice(a, m, n)) <==> BucketsSorted(a, m, n + 1)
  {
    BetweenInRange(a, m[n], Above(m, n));
    SortedAppend(d, Slice(a, m, n), m[n]);
    assert BucketsSorted(a, m, n + 1) <==> BucketsSorted(a, m, n) && BucketSorted(a, m, n);
  }

  /** A drain runs tasks in priority order exactly when every bucket received its tasks in that order. */
  lemma {:induction false} DrainSortedIff<T>(a: seq<Arrival<T>>)
    ensures SortedByPriority(Drained(a)) <==> forall i :: 0 <= i < |Minima(a)| ==> BucketSorted(a, Minima(a), i)
  {
    MinimaAscend(a);
    SortedIffUpTo(a, Minima(a), |Minima(a)|);
  }

  /** Arrivals with priorities 1, 3 and 2 share one bucket and run in the order of arrival. */
  lemma {:induction false} UnsortedDrain<T>(x: T, y: T, z: T)
    ensures var a := [Arrival(x, 1), Arrival(y, 3), Arrival(z, 2)]; !SortedByPriority(Drained(a))
  {
    var none: seq<Arrival<T>> := [];
    var p, q, r := Arrival(x, 1), Arrival(y, 3), Arrival(z, 2);
    BetweenLast(none, p, 1, None);
    BetweenLast([p], q, 1, None);
    BetweenLast([p, q], r, 1, None);
    assert none + [p] == [p] && [p] + [q] == [p, q] && [p, q] + [r] == [p, q, r];
    var a := [p, q, r];
    assert Minima(none) == [] && Minima([p]) == [1] && Minima([p, q]) == [1] && Minima(a) == [1];
    assert Between(none, 1, None) == [] && Between(a, 1, None) == a;
    assert Slice(a, [1], 0) == a;
    DrainSortedIff(a);
    assert a[1].priority > a[2].priority && !SortedByPriority(a);
    assert !BucketSorted(a, Minima(a), 0);
  }

  lemma {:induction false} TasksPermutation<T>(a: seq<Arrival<T>>, b: seq<Arrival<T>>)
    requires multiset(a) == multiset(b)
    ensures multiset(TasksOf(a)) == multiset(TasksOf(b))
  {
    if a == [] {
      assert |multiset(b)| == 0;
    } else {
      var j := MovedFrom(a, b);
      assert a[..0] + a[1..] == a[1..];
      TasksPermutation(a[1..], b[..j] + b[j + 1..]);
      TasksAround(a, 0);
      TasksAround(b, j);
    }
  }

  lemma TasksAround<T>(a: seq<Arrival<T>>, j: nat)
    requires j < |a|
    ensures multiset(TasksOf(a)) == multiset{a[j].task} + multiset(TasksOf(a[..j] + a[j + 1..]))
  {
    assert TasksOf(a) == TasksOf(a[..j]) + ([a[j].task] + TasksOf(a[j + 1..]));
    assert TasksOf(a[..j] + a[j + 1..]) == TasksOf(a[..j]) + TasksOf(a[j + 1..]);
  }

  // ----- The drain protocol

  /** A drain that waits on the event loop. */
  datatype Callback = Microtask(depth: int) | Timer

  /** A drain that is executing: the tasks it has still to run, and its depth. */
  datatype Drain<T> = Idle | Running(queue: seq<T>, depth: int)

  class MixedScheduler<T> {
    const maxNextTickBeforeTimer: int
    const tasks: PriorityBuckets<T>
    var running: bool

    // The event loop
    var pending: seq<Callback>
    var drain: Drain<T>

    /** Everything ever scheduled, and everything run so far. */
    ghost var scheduled: multiset<T>
    ghost var executed: seq<T>
    /** Microtask drains in a row since the last timer drain of this session, or since it began. */
    ghost var streak: int

    /** A drain after so many microtask drains in a row yields to the timers exactly when these are as many as
        the bound allows; otherwise it is one more of them. */
    ghost predicate Fair(c: Callback, depth: int) {
      && (c == Timer <==> depth >= maxNextTickBeforeTimer)
      && (c.Microtask? ==> c.depth == depth + 1)
    }

    function Left(): seq<T>
      reads this
    {
      if drain == Idle then [] else drain.queue
    }

    ghost predicate Valid()
      reads this, tasks
    {
      && tasks.Valid()
      // exactly one drain is pending or executing while running, none otherwise
      && |pending| + (if drain == Idle then 0 else 1) == (if running then 1 else 0)
      // nothing waits without a drain to come
      && (!running ==> tasks.arrivals == [])
      && (pending != [] ==> tasks.arrivals != [])
      // every scheduled task has been run once or is still queued once
      && scheduled == multiset(executed) + multiset(TasksOf(tasks.arrivals)) + multiset(Left())
      // microtask drains in a row
      && 0 <= streak && (streak > 0 ==> streak <= maxNextTickBeforeTimer)
      && (pending != [] ==> Fair(pending[0], streak))
      && (drain != Idle ==> drain.depth == streak)
    }

    constructor (maxNextTickBeforeTimer: int)
      ensures Valid() && scheduled == multiset{} && executed == [] && !running
      ensures fresh(tasks) && this.maxNextTickBeforeTimer == maxNextTickBeforeTimer
    {
      this.maxNextTickBeforeTimer := maxNextTickBeforeTimer;
      tasks := new PriorityBuckets();
      running, pending, drain := false, [], Idle;
      scheduled, executed, streak := multiset{}, [], 0;
    }

    method Starve(depth: int)
      modifies this`pending
      ensures |pending| == |old(pending)| + 1 && old(pending) <= pending && Fair(pending[|old(pending)|], depth)
    {
      if depth >= maxNextTickBeforeTimer {
        pending := pending + [Timer];
      } else {
        pending := pending + [Microtask(depth + 1)];
      }
    }

    /** Callable at any time, in particular by a task while a drain runs it. */
    method ScheduleTask(task: T, priority: int)
      requires Valid()
      modifies this, tasks
      ensures Valid() && running
      ensures scheduled == old(scheduled) + multiset{task} && executed == old(executed)
      ensures tasks.arrivals == old(tasks.arrivals) + [Arrival(task, priority)]
      ensures drain == old(drain) && (old(running) ==> pending == old(pending) && streak == old(streak))
      ensures !old(running) ==> streak == 0 && pending == [if maxNextTickBeforeTimer > 0 then Microtask(1) else Timer]
    {
      TasksAppend(tasks.arrivals, Arrival(task, priority));
      tasks.ScheduleTask(task, priority);
      scheduled := scheduled + multiset{task};
      if !running {
        running := true;
        streak := 0;
        Starve(0);
      }
    }

    /** The event loop starts a pending drain, which takes all tasks that are waiting. */
    method Begin()
      requires Valid() && pending != [] && drain == Idle
      modifies this, tasks
      ensures Valid() && scheduled == old(scheduled) && executed == old(executed) && running
      ensures drain != Idle && drain.queue == TasksOf(Drained(old(tasks.arrivals))) && tasks.arrivals == []
      ensures streak == if old(pending[0]) == Timer then 0 else old(streak) + 1
      ensures old(pending[0]) == Timer <==> old(streak) >= maxNextTickBeforeTimer
      ensures old(pending[0]) != Timer ==> streak <= maxNextTickBeforeTimer
    {
      var depth := match pending[0] case Microtask(d) => d case Timer => 0;
      DrainKeepsTasks(tasks.arrivals);
      TasksPermutation(Drained(tasks.arrivals), tasks.arrivals);
      var queue := tasks.Take();
      streak := if pending[0] == Timer then 0 else streak + 1;
      pending := [];
      drain := Running(queue, depth);
    }

    /** The drain runs its next task. */
    method RunNext() returns (task: T)
      requires Valid() && drain != Idle && drain.queue != []
      modifies this
      ensures Valid() && scheduled == old(scheduled) && running == old(running)
      ensures task == old(drain.queue[0]) && executed == old(executed) + [task]
      ensures drain == Running(old(drain.queue)[1..], old(drain.depth)) && streak == old(streak)
    {
      task := drain.queue[0];
      assert drain.queue == [task] + drain.queue[1..];
      executed := executed + [task];
      drain := Running(drain.queue[1..], drain.depth);
    }

    /** The drain has run all its tasks: it stops the session, or asks for another drain when tasks
        were scheduled meanwhile. */
    method Finish()
      requires Valid() && drain != Idle && drain.queue == []
      modifies this
      ensures Valid() && scheduled == old(scheduled) && executed == old(executed)
      ensures drain == Idle && (running <==> tasks.arrivals != [])
      ensures running ==> streak == old(streak) && |pending| == 1 && Fair(pending[0], streak)
      ensures !running ==> pending == []
    {
      var depth := drain.depth;
      drain := Idle;
      BucketsEmptyIff(tasks.arrivals);
      if |tasks.buckets| == 0 {
        running := false;
      } else {
        Starve(depth);
      }
    }

    /** Whatever is queued has a drain to run it. */
    lemma NoLostWakeup()
      requires Valid()
      ensures tasks.arrivals != [] || Left() != [] ==> |pending| + (if drain == Idle then 0 else 1) == 1
      ensures multiset(executed) <= scheduled
      ensures !running ==> scheduled == multiset(executed)
    {
      assert TasksOf(tasks.arrivals) == [] <==> tasks.arrivals == [];
    }

    /** How far a session is from its end, apart from the tasks it has still to run. */
    ghost function Phase(): nat
      reads this, tasks
    {
      if !running then 0 else if drain == Idle then 2 else if tasks.arrivals == [] then 1 else 3
    }

    /** One turn of the event loop. */
    method Turn()
      requires Valid() && running
      modifies this, tasks
      ensures Valid() && scheduled == old(scheduled) && old(executed) <= executed
      ensures |tasks.arrivals| + |Left()| <= old(|tasks.arrivals| + |Left()|)
      ensures |tasks.arrivals| + |Left()| == old(|tasks.arrivals| + |Left()|) ==> Phase() < old(Phase())
    {
      if drain == Idle {
        DrainKeepsTasks(tasks.arrivals);
        SameLength(Drained(tasks.arrivals), tasks.arrivals);
        Begin();
      } else if drain.queue != [] {
        var task := RunNext();
      } else {
        Finish();
      }
    }

    /** Left alone, the event loop runs every scheduled task and comes to rest. */
    method RunUntilIdle()
      requires Valid()
      modifies this, tasks
      ensures Valid() && !running && scheduled == old(scheduled) && scheduled == multiset(executed)
      ensures old(executed) <= executed
    {
      while running
        invariant Valid() && scheduled == old(scheduled) && old(executed) <= executed
        decreases |tasks.arrivals| + |Left()|, Phase()
      {
        Turn();
      }
      NoLostWakeup();
    }
  }

  lemma SameLength<T>(a: seq<T>, b: seq<T>)
    requires multiset(a) == multiset(b)
    ensures |a| == |b|
  {
    assert |multiset(a)| == |a| && |multiset(b)| == |b|;
  }

  lemma {:induction false} BucketsEmptyIff<T>(a: seq<Arrival<T>>)
    ensures BucketsOf(a) == [] <==> a == []
  {
    MinimaAscend(a);
  }
}