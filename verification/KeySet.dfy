/** The recency list of the cache: a doubly linked list threaded through the keys themselves. */
module KeySets {
  import opened Options
  import opened Recency

  class MapKey<K> {
    const current: K
    var previous: MapKey?<K>
    var next: MapKey?<K>

    constructor (current: K)
      ensures this.current == current && previous == null && next == null
    {
      this.current := current;
      previous, next := null, null;
    }
  }

  class KeySet<K> {
    var head: MapKey?<K>
    var tail: MapKey?<K>

    /** The keys from the one that was accessed longest ago to the latest. */
    ghost var contents: seq<MapKey<K>>

    ghost predicate Valid()
      reads this, contents
    {
      && Distinct(contents)
      && (contents == [] ==> head == null && tail == null)
      && (contents != [] ==>
            && head == contents[0] && tail == contents[|contents| - 1]
            && contents[0].previous == null && contents[|contents| - 1].next == null)
      && (forall i {:trigger contents[i].next} :: 0 <= i < |contents| - 1 ==> contents[i].next == contents[i + 1])
      && (forall i {:trigger contents[i].previous} :: 1 <= i < |contents| ==> contents[i].previous == contents[i - 1])
    }

    constructor ()
      ensures Valid() && contents == []
    {
      head, tail, contents := null, null, [];
    }

    method Add(key: MapKey<K>)
      requires Valid()
      requires key in contents || (key.previous == null && key.next == null)
      modifies this, contents, key
      ensures Valid() && contents == Touch(old(contents), key)
    {
      if key != tail {
        if tail == null {
          head := key;
          tail := key;
          contents := [key];
        } else if key.next != null {
          assert key in contents;
          ghost var i :| 0 <= i < |contents| && contents[i] == key;
          WithoutAt(contents, i);
          Unlink(key, i);
          Append(key);
        } else {
          NotLinked(key);
          WithoutAbsent(contents, key);
          Append(key);
        }
      } else {
        WithoutAt(contents, |contents| - 1);
      }
    }

    lemma NotLinked(key: MapKey<K>)
      requires Valid() && key != tail && key.next == null
      ensures key !in contents
    {
      forall i | 0 <= i < |contents| ensures contents[i] != key {
        if i < |contents| - 1 { assert contents[i].next == contents[i + 1]; }
      }
    }

    method Unlink(key: MapKey<K>, ghost i: nat)
      requires Valid() && i < |contents| - 1 && contents[i] == key
      modifies this, contents
      ensures Valid() && contents == old(contents)[..i] + old(contents)[i + 1..]
      ensures key.next == null
    {
      ghost var before, after := contents, contents[..i] + contents[i + 1..];
      CutOut(before, i, after);
      var previous := key.previous;
      var next := key.next;
      assert next == before[i + 1];
      assert if i == 0 then previous == null else previous == before[i - 1];
      key.next := null;
      if previous != null {
        previous.next := next;
        next.previous := previous;
        assert previous == after[i - 1] && next == after[i];
      } else {
        head := next;
        head.previous := null;
        assert next == after[0];
      }
      contents := after;
    }

    static lemma CutOut(keys: seq<MapKey<K>>, i: nat, after: seq<MapKey<K>>)
      requires i < |keys| && Distinct(keys) && after == keys[..i] + keys[i + 1..]
      ensures Distinct(after)
      ensures forall k :: 0 <= k < |after| ==> after[k] == if k < i then keys[k] else keys[k + 1]
    {}

    method Append(key: MapKey<K>)
      requires Valid() && contents != [] && key !in contents && key.next == null
      modifies this, contents, key
      ensures Valid() && contents == old(contents) + [key]
    {
      tail.next := key;
      key.previous := tail;
      tail := key;
      contents := contents + [key];
    }

    /** Takes out the key that was accessed longest ago and leaves it detached. */
    method Remove() returns (key: MapKey?<K>)
      requires Valid()
      modifies this, contents
      ensures Valid()
      ensures old(contents) == [] ==> key == null && contents == []
      ensures old(contents) != [] ==>
        key == old(contents)[0] && contents == old(contents)[1..] && key.previous == null && key.next == null
    {
      key := head;
      if key != null {
        var next := key.next;
        if next != null {
          key.next := null;
          head := next;
          head.previous := null;
        } else {
          head := null;
          tail := null;
        }
        contents := contents[1..];
      }
    }
  }
}
