/** The write-once cell that fibers wait on. */
module Deferreds {
  import opened Options

  datatype State<J, V> = Pending(joiners: seq<J>) | Done(value: V)

  class Deferred<J(==, !new), V> {
    var state: State<J, V>

    /** Every joiner that ever awaited, the ones that gave up, and the resumptions in order. */
    ghost var awaited: set<J>
    ghost var cancelled: set<J>
    ghost var resumed: seq<(J, V)>
    /** How often `CompleteWith` returned true, and how often `UnsafeDone` wrote the value. */
    ghost var completions: nat
    ghost var unsafeCompletions: nat

    ghost predicate Resumed(j: J)
      reads this
    {
      exists i :: 0 <= i < |resumed| && resumed[i].0 == j
    }

    ghost predicate Waiting(j: J)
      reads this
    {
      state.Pending? && j in state.joiners
    }

    ghost predicate Valid()
      reads this
    {
      && cancelled <= awaited
      && (forall i :: 0 <= i < |resumed| ==> resumed[i].0 in awaited && resumed[i].0 !in cancelled)
      && (forall i, k :: 0 <= i < k < |resumed| ==> resumed[i].0 != resumed[k].0)
      && completions + unsafeCompletions == (if state.Done? then 1 else 0)
      && match state
         case Pending(js) =>
           && resumed == []
           && (forall j :: j in awaited <==> j in js || j in cancelled)
           && (forall j :: j in js ==> j !in cancelled)
           && Distinct(js)
         case Done(v) =>
           && (forall j :: j in awaited ==> j in cancelled || Resumed(j))
           && (forall i :: 0 <= i < |resumed| ==> resumed[i].1 == v)
    }

    constructor ()
      ensures Valid() && state == Pending([]) && awaited == cancelled == {} && resumed == []
      ensures completions == unsafeCompletions == 0
    {
      state := Pending([]);
      awaited, cancelled, resumed := {}, {}, [];
      completions, unsafeCompletions := 0, 0;
    }

    /** Returns the value at once, or registers the joiner in front of the others. */
    method Await(j: J) returns (now: Option<V>)
      requires Valid() && j !in awaited
      modifies this
      ensures Valid() && awaited == old(awaited) + {j} && cancelled == old(cancelled)
      ensures completions == old(completions) && unsafeCompletions == old(unsafeCompletions)
      ensures match old(state)
              case Done(v) => now == Some(v) && state == Done(v) && resumed == old(resumed) + [(j, v)]
              case Pending(js) => now == None && state == Pending([j] + js) && resumed == []
    {
      awaited := awaited + {j};
      match state {
        case Done(v) =>
          ghost var before := resumed;
          resumed := resumed + [(j, v)];
          assert resumed[|before|].0 == j;
          assert forall i :: 0 <= i < |before| ==> resumed[i] == before[i];
          return Some(v);
        case Pending(joiners) =>
          state := Pending([j] + joiners);
          return None;
      }
    }

    static ghost function With(js: seq<J>, v: V): seq<(J, V)> {
      seq(|js|, i requires 0 <= i < |js| => (js[i], v))
    }

    /** Completes the cell unless it is complete; joiners resume with the last one to wait first. */
    method CompleteWith(v: V) returns (won: bool)
      requires Valid()
      modifies this
      ensures Valid() && awaited == old(awaited) && cancelled == old(cancelled)
      ensures won <==> old(state.Pending?)
      ensures state == if won then Done(v) else old(state)
      ensures resumed == if won then With(old(state.joiners), v) else old(resumed)
      ensures completions == old(completions) + (if won then 1 else 0)
      ensures unsafeCompletions == old(unsafeCompletions)
    {
      match state {
        case Done(_) =>
          return false;
        case Pending(joiners) =>
          state := Done(v);
          completions := completions + 1;
          for i := 0 to |joiners|
            invariant state == Done(v) && awaited == old(awaited) && cancelled == old(cancelled)
            invariant completions == old(completions) + 1 && unsafeCompletions == old(unsafeCompletions)
            invariant resumed == With(joiners[..i], v)
          {
            resumed := resumed + [(joiners[i], v)];
          }
          assert joiners[..|joiners|] == joiners;
          AllResumed(joiners, v);
          return true;
      }
    }

    lemma AllResumed(js: seq<J>, v: V)
      requires multiset(resumed) == multiset(With(js, v)) && |resumed| == |js|
      ensures forall j :: j in js ==> Resumed(j)
    {
      forall j | j in js ensures Resumed(j) {
        var i :| 0 <= i < |js| && js[i] == j;
        assert With(js, v)[i] == (j, v);
        assert (j, v) in multiset(resumed);
        assert (j, v) in resumed;
      }
    }

    /** Completes the cell unless it is complete; joiners resume in the order in which they waited. */
    method UnsafeDone(v: V)
      requires Valid()
      modifies this
      ensures Valid() && awaited == old(awaited) && cancelled == old(cancelled)
      ensures state == if old(state.Pending?) then Done(v) else old(state)
      ensures resumed == if old(state.Pending?) then With(Reverse(old(state.joiners)), v) else old(resumed)
      ensures completions == old(completions)
      ensures unsafeCompletions == old(unsafeCompletions) + (if old(state.Pending?) then 1 else 0)
    {
      match state {
        case Done(_) =>
        case Pending(joiners) =>
          state := Done(v);
          unsafeCompletions := unsafeCompletions + 1;
          ghost var back := Reverse(joiners);
          for i := |joiners| downto 0
            invariant state == Done(v) && awaited == old(awaited) && cancelled == old(cancelled)
            invariant completions == old(completions) && unsafeCompletions == old(unsafeCompletions) + 1
            invariant resumed == With(back[..|joiners| - i], v)
          {
            resumed := resumed + [(joiners[i], v)];
          }
          assert back[..|joiners|] == back;
          AllResumed(back, v);
          assert forall i :: 0 <= i < |joiners| ==> joiners[i] == back[|joiners| - 1 - i];
      }
    }

    /** What interrupting a waiting fiber runs. */
    method InterruptJoiner(j: J)
      requires Valid() && j in awaited
      modifies this
      ensures Valid() && awaited == old(awaited) && resumed == old(resumed)
      ensures completions == old(completions) && unsafeCompletions == old(unsafeCompletions)
      ensures old(state.Done?) ==> state == old(state) && cancelled == old(cancelled)
      ensures old(state.Pending?) ==> state == Pending(Without(old(state.joiners), j)) && cancelled == old(cancelled) + {j}
    {
      if state.Pending? {
        WithoutMembers(state.joiners, j);
        state := Pending(Without(state.joiners, j));
        cancelled := cancelled + {j};
      }
    }

    method Poll() returns (r: Option<V>)
      ensures r == if state.Done? then Some(state.value) else None
    {
      r := match state case Done(v) => Some(v) case Pending(_) => None;
    }

    /** Every await is in exactly one of waiting, cancelled and resumed; nothing is resumed before
        completion, nothing is left waiting after it, and the value is written at most once. */
    lemma ExactlyOneFate(j: J)
      requires Valid() && j in awaited
      ensures Waiting(j) || j in cancelled || Resumed(j)
      ensures !(Waiting(j) && j in cancelled) && !(Waiting(j) && Resumed(j)) && !(j in cancelled && Resumed(j))
      ensures state.Pending? ==> !Resumed(j)
      ensures state.Done? ==> !Waiting(j)
      ensures forall i, k :: 0 <= i < |resumed| && 0 <= k < |resumed| && resumed[i].0 == j == resumed[k].0 ==> i == k
      ensures completions + unsafeCompletions <= 1
    {}
  }
}
