/**
  What a hash table is to its callers: a map whose keys are walked in the order they were
  added. Module HashTable proves that the intrusive table behaves so.
 */
module OrderedTable {

  ghost predicate NoRepeats<K>(s: seq<K>) {
    forall i, j :: 0 <= i < j < |s| ==> s[i] != s[j]
  }

  function Dropped<K(==)>(s: seq<K>, k: K): seq<K> {
    if s == [] then [] else if s[0] == k then s[1..] else [s[0]] + Dropped(s[1..], k)
  }

  lemma {:induction false} DroppedFacts<K(!new)>(s: seq<K>, k: K)
    requires NoRepeats(s)
    ensures NoRepeats(Dropped(s, k)) && forall x :: x in Dropped(s, k) <==> x in s && x != k
  {
    if s == [] {
    } else {
      assert s == [s[0]] + s[1..];
      DroppedFacts(s[1..], k);
      var t := Dropped(s, k);
      if s[0] != k {
        assert s[0] !in s[1..];
        forall i, j | 0 <= i < j < |t|
          ensures t[i] != t[j]
        {
          assert t[j] == Dropped(s[1..], k)[j - 1];
        }
      }
    }
  }

  datatype Table<K(==,!new), V> = Table(order: seq<K>, entries: map<K, V>) {
    ghost predicate Ok() {
      NoRepeats(order) && forall k :: k in order <==> k in entries
    }

    /** HASH_ADD of a new key: last in order. */
    function Add(k: K, v: V): (t: Table<K, V>)
      requires Ok() && k !in entries
      ensures t.Ok()
    {
      Table(order + [k], entries[k := v])
    }

    /** HASH_DEL. */
    function Remove(k: K): (t: Table<K, V>)
      requires Ok() && k in entries
      ensures t.Ok()
    {
      DroppedFacts(order, k);
      Table(Dropped(order, k), entries - {k})
    }

    /** An entry is changed in place. */
    function Put(k: K, v: V): (t: Table<K, V>)
      requires Ok() && k in entries
      ensures t.Ok()
    {
      Table(order, entries[k := v])
    }
  }

  const NOTHING: Table<string, bool> := Table([], map[])

  /** As many keys in order as there are entries. */
  lemma {:induction false} OrderLength<K(!new), V>(t: Table<K, V>)
    requires t.Ok()
    ensures |t.order| == |t.entries|
    decreases |t.order|
  {
    if t.order == [] {
      assert t.entries == map[];
    } else {
      var k := t.order[0];
      var rest := t.Remove(k);
      OrderLength(rest);
      assert t.entries.Keys == rest.entries.Keys + {k};
    }
  }
}
