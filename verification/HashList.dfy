/** The doubly linked application-order list: relinking at its end, before an item, and around a deleted item. */
module HashList {
  import opened HashItem

  /** The items of s are the nodes S and the values of the map m, each under its own key. */
  ghost predicate Keyed(s: seq<Item>, S: set<Item>, m: map<Key, Item>)
    reads S`key
  {
    && |s| == |S| == |m|
    && (forall i :: 0 <= i < |s| ==> s[i] in S)
    && (forall x :: x in S ==> x in s)
    && (forall x :: x in S ==> x.key in m && m[x.key] == x)
    && (forall k :: k in m ==> m[k] in S && m[k].key == k)
  }

  /** s with x put in at position i. */
  ghost function Inserted(s: seq<Item>, i: nat, x: Item): seq<Item>
    requires i <= |s|
  {
    s[..i] + [x] + s[i..]
  }

  /** s without its i-th item. */
  ghost function Without(s: seq<Item>, i: nat): seq<Item>
    requires i < |s|
  {
    s[..i] + s[i + 1..]
  }

  /** s without x. */
  ghost function Removed(s: seq<Item>, x: Item): seq<Item> {
    if s == [] then [] else if s[0] == x then s[1..] else [s[0]] + Removed(s[1..], x)
  }

  lemma {:induction false} RemovedAt(s: seq<Item>, i: nat)
    requires i < |s| && Distinct(s)
    ensures Removed(s, s[i]) == Without(s, i)
  {
    if i == 0 {
    } else {
      RemovedAt(s[1..], i - 1);
      assert [s[0]] + Without(s[1..], i - 1) == Without(s, i);
    }
  }

  /** What an item's links and the ends of the list say about its position. */
  lemma LinkedAt(s: seq<Item>, i: nat)
    requires Linked(s) && i < |s|
    ensures s[i].next == At(s, i + 1) && s[i].prev == At(s, i - 1)
    ensures s[i] == At(s, |s| - 1) <==> i == |s| - 1
    ensures Removed(s, s[i]) == Without(s, i)
  {
    RemovedAt(s, i);
  }

  lemma WithoutEnds(s: seq<Item>, i: nat)
    requires i < |s|
    ensures At(Without(s, i), 0) == if i == 0 then At(s, 1) else s[0]
    ensures At(Without(s, i), |s| - 2) == if i == |s| - 1 then At(s, i - 1) else s[|s| - 1]
  {
  }

  lemma WithoutContents(s: seq<Item>, i: nat)
    requires i < |s| && Distinct(s)
    ensures forall y :: y in Without(s, i) <==> y in s && y != s[i]
  {
    forall y | y in s && y != s[i]
      ensures y in Without(s, i)
    {
      var j :| 0 <= j < |s| && s[j] == y;
      assert y == Without(s, i)[if j < i then j else j - 1];
    }
  }

  lemma InsertedContents(s: seq<Item>, i: nat, x: Item)
    requires i <= |s|
    ensures forall y :: y in Inserted(s, i, x) <==> y in s || y == x
  {
    forall y | y in s || y == x
      ensures y in Inserted(s, i, x)
    {
      if y in s {
        var j :| 0 <= j < |s| && s[j] == y;
        assert y == Inserted(s, i, x)[if j < i then j else j + 1];
      } else {
        assert y == Inserted(s, i, x)[i];
      }
    }
  }

  lemma KeyedInsert(s: seq<Item>, S: set<Item>, m: map<Key, Item>, i: nat, x: Item)
    requires Keyed(s, S, m) && i <= |s| && x !in S && x.key !in m
    ensures Keyed(Inserted(s, i, x), S + {x}, m[x.key := x]) && x !in s
  {
    InsertedContents(s, i, x);
  }

  lemma KeyedFacts(s: seq<Item>, S: set<Item>, m: map<Key, Item>)
    requires Keyed(s, S, m)
    ensures |s| == |S| == |m| && (s == [] ==> S == {})
    ensures forall i :: 0 <= i < |s| ==> s[i] in S
  {
  }

  lemma KeyedPosition(s: seq<Item>, S: set<Item>, m: map<Key, Item>, x: Item) returns (i: nat)
    requires Keyed(s, S, m) && x in S
    ensures i < |s| && s[i] == x
  {
    i :| 0 <= i < |s| && s[i] == x;
  }

  lemma KeyedAppend(s: seq<Item>, S: set<Item>, m: map<Key, Item>, x: Item)
    requires Keyed(s, S, m) && x !in S && x.key !in m
    ensures Keyed(s + [x], S + {x}, m[x.key := x]) && x !in s
  {
    KeyedInsert(s, S, m, |s|, x);
    assert Inserted(s, |s|, x) == s + [x];
  }

  lemma KeyedRemove(s: seq<Item>, S: set<Item>, m: map<Key, Item>, i: nat)
    requires Keyed(s, S, m) && Linked(s) && i < |s|
    ensures Keyed(Without(s, i), S - {s[i]}, m - {s[i].key})
  {
    var x := s[i];
    WithoutContents(s, i);
    assert (m - {x.key}).Keys == m.Keys - {x.key};
    assert |m - {x.key}| == |(m - {x.key}).Keys|;
  }

  lemma KeyedReorder(s: seq<Item>, S: set<Item>, m: map<Key, Item>, t: seq<Item>)
    requires Keyed(s, S, m) && multiset(t) == multiset(s)
    ensures Keyed(t, S, m)
  {
    assert |t| == |multiset(t)| == |s|;
    forall x
      ensures x in t <==> x in s
    {
      assert x in multiset(t) <==> x in multiset(s);
    }
    assert forall i :: 0 <= i < |t| ==> t[i] in t;
  }

  /** HASH_APPEND_LIST. */
  method Append(tail: Item, x: Item, ghost s: seq<Item>)
    requires Linked(s) && |s| > 0 && tail == s[|s| - 1] && x !in s
    modifies x`next, x`prev, tail`next
    ensures Linked(s + [x])
  {
    x.next := null;
    x.prev := tail;
    tail.next := x;
  }

  /** Two lists with the same first item agree as far as the links of one are those of the other. */
  lemma {:induction false} Follows(s: seq<Item>, t: seq<Item>, i: nat)
    requires Linked(s) && s != [] && i < |t| && s[0] == t[0]
    requires forall k :: 0 <= k < i ==> t[k].next == t[k + 1]
    ensures i < |s| && s[i] == t[i]
  {
    if i == 0 {
    } else {
      Follows(s, t, i - 1);
      assert t[i - 1].next == t[i - 1 + 1] && s[i - 1].next == At(s, i);
    }
  }

  /**
    HASH_APPEND_LIST of an item the list already has: the links spell no list any more,
    wherever the item was.
   */
  method AppendAgain(head: Item, tail: Item, x: Item, ghost s: seq<Item>, ghost i: nat)
    requires Linked(s) && i < |s| && x == s[i] && head == s[0] && tail == s[|s| - 1]
    modifies x`next, x`prev, tail`next
    ensures forall t: seq<Item> :: Linked(t) && t != [] ==> t[0] != head
  {
    x.next := null;
    x.prev := tail;
    tail.next := x;
    assert forall k :: 0 <= k < i ==> s[k].next == s[k + 1];
    forall t: seq<Item> | Linked(t) && t != [] && t[0] == head
      ensures false
    {
      Follows(t, s, i);
      if i > 0 {
        Follows(t, s, i - 1);
      }
      LinkedAt(t, i);
    }
  }

  /** HASH_AKBI_INNER_LOOP: the first item of s that compares greater than x. */
  method FirstGreater(head: Item, x: Item, cmp: (Item, Item) -> int, ghost s: seq<Item>)
    returns (iter: Item?, ghost i: nat)
    requires Linked(s) && head == At(s, 0)
    ensures i <= |s| && iter == At(s, i)
    ensures forall j :: 0 <= j < i ==> cmp(s[j], x) <= 0
    ensures i < |s| ==> cmp(s[i], x) > 0
  {
    iter, i := head, 0;
    while iter != null
      invariant i <= |s| && iter == At(s, i)
      invariant forall j :: 0 <= j < i ==> cmp(s[j], x) <= 0
      decreases |s| - i
    {
      if cmp(iter, x) > 0 {
        break;
      }
      iter, i := iter.next, i + 1;
    }
  }

  /** Links x in front of iter = s[i]. */
  method InsertBefore(iter: Item, x: Item, ghost s: seq<Item>, ghost i: nat)
    requires Linked(s) && i < |s| && iter == s[i] && x !in s
    modifies x`next, x`prev, s`next, s`prev
    ensures Linked(Inserted(s, i, x)) && (x.prev == null <==> i == 0)
  {
    x.next := iter;
    x.prev := iter.prev;
    if x.prev != null {
      x.prev.next := x;
    }
    iter.prev := x;
  }

  /** Unlinks x = s[i] from its neighbours. */
  method Bypass(x: Item, ghost s: seq<Item>, ghost i: nat)
    requires Linked(s) && i < |s| && x == s[i]
    modifies s`next, s`prev
    ensures Linked(Without(s, i))
    ensures x.next == old(x.next) && x.prev == old(x.prev)
  {
    ghost var w := Without(s, i);
    BypassedNeighbours(s, i);
    if x.prev != null {
      x.prev.next := x.next;
    }
    if x.next != null {
      x.next.prev := x.prev;
    }
    forall k | 0 <= k < |w|
      ensures w[k].next == At(w, k + 1) && w[k].prev == At(w, k - 1)
    {
      assert w[k] == s[if k < i then k else k + 1];
    }
  }

  lemma BypassedNeighbours(s: seq<Item>, i: nat)
    requires Linked(s) && i < |s|
    ensures s[i].prev == At(s, i - 1) && s[i].next == At(s, i + 1) && Distinct(Without(s, i))
  {
  }

  lemma LinkedSingle(x: Item)
    requires x.next == null && x.prev == null
    ensures Linked([x])
  {
  }
}
