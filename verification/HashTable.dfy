/**
  The intrusive hash table: one application-order list and one bucket index over the
  same items. The abstract state is Items, the items in application order, and Index,
  the plain map from keys to items.
 */
module HashTable {
  import opened Bits
  import opened HashItem
  import opened HashList
  import opened HashBuckets
  import StableSort
  import HashSort

  const INITIAL_BUCKETS_LOG2 := 5
  const CAPACITY_THRESH := 10

  datatype Sizing = Sizing(log2: nat, ideal: nat, nonideal: nat, ineff: nat, latched: bool)

  const NEW_TABLE := Sizing(INITIAL_BUCKETS_LOG2, 0, 0, 0, false)

  class Table {
    const hash: Key -> nat
    var head: Item?
    // the UT_hash_table, meaningful while head is not null
    var buckets: array<Bucket>
    var log2NumBuckets: nat
    var numItems: nat
    var tail: Item?
    var idealChainMaxlen: nat
    var nonidealItems: nat
    var ineffExpands: nat
    var noexpand: bool

    ghost var Items: seq<Item>
    ghost var Nodes: set<Item>
    ghost var Chains: seq<seq<Item>>
    ghost var Index: map<Key, Item>

    /** The application-order list and the map describe the same items. */
    ghost predicate ListOk()
      reads `head, `tail, `Items, `Nodes, `Index, Nodes`next, Nodes`prev, Nodes`key
    {
      && Keyed(Items, Nodes, Index) && |Items| <= MAX_ITEMS
      && head == At(Items, 0) && tail == At(Items, |Items| - 1)
      && Linked(Items)
    }

    /** The bucket index holds exactly the items of S, filed by the hash of their keys. */
    ghost predicate BucketsOk(S: set<Item>)
      reads `buckets, `log2NumBuckets, `Chains, buckets, S`hhNext, S`hhPrev, S`hashv, S`key
    {
      && buckets.Length == Pow2(log2NumBuckets) && log2NumBuckets >= INITIAL_BUCKETS_LOG2
      && Indexes(buckets[..], Chains, S)
      && (forall x :: x in S ==> x.hashv == hash(x.key))
    }

    ghost predicate Valid()
      reads this, buckets, Nodes
    {
      ListOk() && (head != null ==> numItems == |Items| && BucketsOk(Nodes))
    }

    /** The counts of the list, and whether there is a table. */
    lemma ListFacts()
      requires ListOk()
      ensures |Items| == |Nodes| == |Index| <= MAX_ITEMS && (head == null) == (Items == [])
      ensures (Items == [] ==> Nodes == {}) && forall i :: 0 <= i < |Items| ==> Items[i] in Nodes
    {
      KeyedFacts(Items, Nodes, Index);
    }

    constructor (hash: Key -> nat)
      ensures Valid() && Items == [] && Nodes == {} && Index == map[] && this.hash == hash
      ensures fresh(buckets)
    {
      this.hash := hash;
      head, tail := null, null;
      buckets := new Bucket[0];
      log2NumBuckets, numItems, idealChainMaxlen, nonidealItems, ineffExpands, noexpand := 0, 0, 0, 0, 0, false;
      Items, Nodes, Chains, Index := [], {}, [], map[];
    }

    /** HASH_COUNT. */
    method Count() returns (n: nat)
      requires Valid()
      ensures n == |Index| == |Items|
    {
      n := if head != null then numItems else 0;
    }

    /** A key is looked for in the one chain that can hold it. */
    lemma ChainOfKey(key: Key)
      requires Valid() && head != null
      ensures 0 < buckets.Length == |Chains|
      ensures var b := ToBucket(hash(key), buckets.Length);
        && ChainOf(buckets[b], Chains[b])
        && (key in Index ==> Index[key] in Chains[b] && Index[key].key == key && Index[key].hashv == hash(key))
        && forall i :: 0 <= i < |Chains[b]| && Chains[b][i].key == key ==> key in Index && Index[key] == Chains[b][i]
    {
      hide Linked, ToBucket;
    }

    /** HASH_FIND: what a plain map would answer. */
    method Find(key: Key) returns (out: Item?)
      requires Valid()
      ensures out == if key in Index then Index[key] else null
    {
      hide Keyed, Linked, Indexes, ToBucket;
      ListFacts();
      out := null;
      if head != null {
        var hashv := hash(key);
        ChainOfKey(key);
        var b := ToBucket(hashv, buckets.Length);
        ghost var c := Chains[b];
        out := buckets[b].hhHead;
        ghost var i := 0;
        while out != null
          invariant i <= |c| && out == At(c, i)
          invariant forall j :: 0 <= j < i ==> c[j].key != key
          decreases |c| - i
        {
          assert out == c[i];
          if out.hashv == hashv && |out.key| == |key| {
            if out.key == key {
              break;
            }
          }
          out, i := out.hhNext, i + 1;
        }
      }
    }

    /** What the table remembers of its size and of its last expansion. */
    ghost function Sizes(): Sizing
      reads `log2NumBuckets, `idealChainMaxlen, `nonidealItems, `ineffExpands, `noexpand
    {
      Sizing(log2NumBuckets, idealChainMaxlen, nonidealItems, ineffExpands, noexpand)
    }

    /** One more item with this hash value makes its chain too long. */
    ghost predicate Expands(hashv: nat)
      reads `buckets, `noexpand, buckets
    {
      && buckets.Length > 0
      && var bkt := buckets[ToBucket(hashv, buckets.Length)];
      && bkt.count + 1 >= U32((bkt.expandMult + 1) * CAPACITY_THRESH) && !noexpand
    }

    /** The bucket count doubled since the table had these sizes; statistics and latch are exact. */
    ghost predicate Expanded(was: Sizing)
      reads `buckets, `log2NumBuckets, `numItems, `idealChainMaxlen, `nonidealItems, `ineffExpands, `noexpand, buckets
    {
      && buckets.Length > 0 && log2NumBuckets == was.log2 + 1
      && idealChainMaxlen == CeilDiv(numItems, buckets.Length)
      && Stats(buckets[..], idealChainMaxlen, nonidealItems)
      && ineffExpands == (if nonidealItems > numItems / 2 then U32(was.ineff + 1) else 0)
      && noexpand == (was.latched || ineffExpands > 1)
    }

    /** The new bucket array with every item moved, and its statistics. */
    method Rebucket()
      requires BucketsOk(Nodes) && 0 < numItems == |Nodes| <= MAX_ITEMS
      modifies `buckets, `log2NumBuckets, `idealChainMaxlen, `nonidealItems, `Chains
      modifies Nodes`hhNext, Nodes`hhPrev
      ensures BucketsOk(Nodes) && fresh(buckets)
      ensures log2NumBuckets == old(log2NumBuckets) + 1 && buckets.Length == 2 * old(buckets.Length) > 0
      ensures Regrouped(old(Chains), Chains) && Redistributed(old(Chains), Chains)
      ensures idealChainMaxlen == CeilDiv(numItems, buckets.Length)
      ensures Stats(buckets[..], idealChainMaxlen, nonidealItems)
    {
      hide Indexes, Stats, MovedTo, CeilDiv, Feeder;
      buckets, idealChainMaxlen, nonidealItems, Chains := Doubled(buckets, log2NumBuckets, numItems, Chains, Nodes);
      log2NumBuckets := log2NumBuckets + 1;
    }

    /** HASH_EXPAND_BUCKETS: twice the buckets, the same items. */
    method ExpandBuckets()
      requires BucketsOk(Nodes) && 0 < numItems == |Nodes| <= MAX_ITEMS
      modifies `buckets, `log2NumBuckets, `idealChainMaxlen, `nonidealItems, `ineffExpands, `noexpand, `Chains
      modifies Nodes`hhNext, Nodes`hhPrev
      ensures BucketsOk(Nodes) && fresh(buckets)
      ensures log2NumBuckets == old(log2NumBuckets) + 1 && buckets.Length == 2 * old(buckets.Length)
      ensures Regrouped(old(Chains), Chains) && Redistributed(old(Chains), Chains)
      ensures Expanded(old(Sizes()))
    {
      hide BucketsOk, Regrouped, Redistributed, Stats, CeilDiv, ShiftRight;
      Rebucket();
      HalfIsShift(numItems);
      ineffExpands := if nonidealItems > ShiftRight(numItems, 1) then U32(ineffExpands + 1) else 0;
      if ineffExpands > 1 {
        noexpand := true;
      }
    }

    /** After an expansion a multiplier is exact if and only if its bucket's last product fits a word. */
    lemma MultipliersExact(was: Sizing)
      requires BucketsOk(Nodes) && Expanded(was) && was.log2 >= INITIAL_BUCKETS_LOG2
      requires 0 < numItems == |Nodes| <= MAX_ITEMS
      ensures 0 < CeilDiv(numItems, buckets.Length)
      ensures var ideal := CeilDiv(numItems, buckets.Length);
        forall b :: 0 <= b < buckets.Length ==>
          && (buckets[b].expandMult == MultFor(buckets[b].count, ideal) <==> LastProductFits(buckets[b].count, ideal))
          && (numItems <= EXACT_ITEMS ==> LastProductFits(buckets[b].count, ideal))
    {
      hide MultFor, CeilDiv, Indexes, LastProductFits;
      Pow2Monotone(6, log2NumBuckets);
      assert Pow2(3) == 8 && Pow2(6) == 8 * Pow2(3);
      AllMultipliersExact(buckets[..], Chains, Nodes, nonidealItems);
      assert forall b :: 0 <= b < buckets.Length ==> buckets[..][b] == buckets[b];
    }

    /** HASH_MAKE_TABLE. */
    method MakeTable()
      modifies `buckets, `log2NumBuckets, `numItems, `idealChainMaxlen, `nonidealItems, `ineffExpands
      modifies `noexpand, `Chains
      ensures fresh(buckets) && BucketsOk({}) && numItems == 0 && Sizes() == NEW_TABLE
      ensures forall hashv :: !Expands(hashv)
    {
      log2NumBuckets := INITIAL_BUCKETS_LOG2;
      buckets := new Bucket[32](_ => EMPTY_BUCKET);
      numItems, idealChainMaxlen, nonidealItems, ineffExpands, noexpand := 0, 0, 0, 0, false;
      Chains := seq(32, i => []);
      assert Pow2(INITIAL_BUCKETS_LOG2) == 32;
    }

    /** The bucket part of HASH_ADD_TO_BKT: x goes to the front of its chain. */
    method FileItem(x: Item, ghost S: set<Item>)
      requires x !in S && Nodes == S + {x} && BucketsOk(S) && x.hashv == hash(x.key)
      modifies `Chains, buckets, x`hhNext, x`hhPrev, S`hhPrev
      ensures BucketsOk(Nodes) && 0 < |old(Chains)| == buckets.Length && Chains == Pushed(old(Chains), x)
      ensures var b := ToBucket(x.hashv, buckets.Length);
        buckets[b].count == old(buckets[b].count) + 1 && buckets[b].expandMult == old(buckets[b].expandMult)
    {
      hide Indexes, Filed, Present;
      FiledChains(buckets[..], Chains, S);
      var b := ToBucket(x.hashv, buckets.Length);
      Push(buckets, b, buckets[b].expandMult, x, Chains, S);
      Chains := Pushed(Chains, x);
    }

    /** HASH_ADD_TO_TABLE and HASH_ADD_TO_BKT: x, already on the list, enters its bucket. */
    method AddToTable(x: Item, ghost S: set<Item>)
      requires x !in S && Nodes == S + {x} && BucketsOk(S) && x.hashv == hash(x.key)
      requires numItems + 1 == |Nodes| <= MAX_ITEMS
      modifies `buckets, `log2NumBuckets, `numItems, `idealChainMaxlen, `nonidealItems, `ineffExpands
      modifies `noexpand, `Chains
      modifies buckets, Nodes`hhNext, Nodes`hhPrev
      ensures BucketsOk(Nodes) && numItems == |Nodes|
      ensures buckets == old(buckets) || fresh(buckets)
      ensures if old(Expands(x.hashv)) then Expanded(old(Sizes()))
              else buckets == old(buckets) && Sizes() == old(Sizes())
    {
      hide BucketsOk, Expanded;
      numItems := numItems + 1;
      FileItem(x, S);
      var b := ToBucket(x.hashv, buckets.Length);
      if buckets[b].count >= U32((buckets[b].expandMult + 1) * CAPACITY_THRESH) && !noexpand {
        ExpandBuckets();
      }
    }

    /** The list part of HASH_ADD_KEYPTR, on an item the table already has: no list starts at its head any more. */
    method AppendAgain(x: Item)
      requires ListOk() && x in Nodes
      modifies `tail, Nodes`next, Nodes`prev
      ensures !ListOk() && forall s: seq<Item> :: Linked(s) && s != [] ==> s[0] != head
    {
      ghost var i := Position(x);
      ListFacts();
      HashList.AppendAgain(head, tail, x, Items, i);
      tail := x;
    }

    /** The end of both additions: the list has x, and now the buckets get it. */
    method Enter(x: Item, ghost S: set<Item>)
      requires ListOk() && x !in S && Nodes == S + {x} && BucketsOk(S) && x.hashv == hash(x.key)
      requires numItems == |S|
      modifies `buckets, `log2NumBuckets, `numItems, `idealChainMaxlen, `nonidealItems, `ineffExpands
      modifies `noexpand, `Chains
      modifies buckets, Nodes`hhNext, Nodes`hhPrev
      ensures Valid() && (buckets == old(buckets) || fresh(buckets))
      ensures if old(Expands(x.hashv)) then Expanded(old(Sizes()))
              else buckets == old(buckets) && Sizes() == old(Sizes())
    {
      hide BucketsOk, ListOk, Expands, Expanded, Sizes;
      ListFacts();
      AddToTable(x, S);
    }

    /** The list part of HASH_ADD_KEYPTR. */
    method AppendItem(x: Item)
      requires ListOk() && x !in Nodes && x.key !in Index && |Items| < MAX_ITEMS
      modifies `head, `tail, `Items, `Nodes, `Index, x`next, x`prev, Nodes`next
      ensures ListOk() && Items == old(Items) + [x] && Nodes == old(Nodes) + {x}
      ensures Index == old(Index)[x.key := x]
    {
      hide Linked, Keyed;
      KeyedFacts(Items, Nodes, Index);
      KeyedAppend(Items, Nodes, Index, x);
      if head == null {
        x.next := null;
        x.prev := null;
        head := x;
        LinkedSingle(x);
        assert Items + [x] == [x];
      } else {
        Append(tail, x, Items);
      }
      tail := x;
      Items, Nodes, Index := Items + [x], Nodes + {x}, Index[x.key := x];
    }

    /** The key and hash value of a new item, and the table itself when the list is empty. */
    method Prepare(x: Item, key: Key)
      requires Valid() && x !in Nodes
      modifies `buckets, `log2NumBuckets, `numItems, `idealChainMaxlen, `nonidealItems, `ineffExpands
      modifies `noexpand, `Chains
      modifies x`key, x`hashv
      ensures ListOk() && BucketsOk(Nodes) && numItems == |Nodes| == |Items|
      ensures x.key == key && x.hashv == hash(key)
      ensures if head == null then fresh(buckets) && Sizes() == NEW_TABLE && !Expands(x.hashv)
              else buckets == old(buckets) && Sizes() == old(Sizes()) && Expands(x.hashv) == old(Expands(hash(key)))
    {
      hide Indexes, Linked, Keyed;
      KeyedFacts(Items, Nodes, Index);
      x.hashv := hash(key);
      x.key := key;
      if head == null {
        MakeTable();
      }
    }

    /** HASH_ADD_KEYPTR: x becomes the last item. */
    method Add(x: Item, key: Key)
      requires Valid() && x !in Nodes && key !in Index && |Items| < MAX_ITEMS
      modifies this, buckets, x, Nodes`next, Nodes`hhNext, Nodes`hhPrev
      ensures Valid() && Items == old(Items) + [x] && Nodes == old(Nodes) + {x}
      ensures Index == old(Index)[key := x] && x.key == key
      ensures buckets == old(buckets) || fresh(buckets)
      ensures if old(head) == null then Sizes() == NEW_TABLE
              else if old(Expands(hash(key))) then Expanded(old(Sizes()))
              else buckets == old(buckets) && Sizes() == old(Sizes())
    {
      hide BucketsOk, ListOk, Expands, Expanded, Sizes;
      ghost var S := Nodes;
      Prepare(x, key);
      AppendItem(x);
      Enter(x, S);
    }

    /** HASH_ADD_KEYPTR_INORDER: x goes before the first item that compares greater, or last. */
    method AddInOrder(x: Item, key: Key, cmp: (Item, Item) -> int)
      requires Valid() && x !in Nodes && key !in Index && |Items| < MAX_ITEMS
      modifies this, buckets, x, Nodes`next, Nodes`prev, Nodes`hhNext, Nodes`hhPrev
      ensures Valid() && Items == StableSort.Insert(cmp, old(Items), x) && Nodes == old(Nodes) + {x}
      ensures Index == old(Index)[key := x] && x.key == key
      ensures buckets == old(buckets) || fresh(buckets)
      ensures if old(head) == null then Sizes() == NEW_TABLE
              else if old(Expands(hash(key))) then Expanded(old(Sizes()))
              else buckets == old(buckets) && Sizes() == old(Sizes())
    {
      hide BucketsOk, ListOk, Expands, Expanded, Sizes, StableSort.Insert;
      ghost var S := Nodes;
      Prepare(x, key);
      InsertItem(x, cmp);
      Enter(x, S);
    }

    /** The list part of HASH_ADD_KEYPTR_INORDER. */
    method InsertItem(x: Item, cmp: (Item, Item) -> int)
      requires ListOk() && x !in Nodes && x.key !in Index && |Items| < MAX_ITEMS
      modifies `head, `tail, `Items, `Nodes, `Index, x`next, x`prev, Nodes`next, Nodes`prev
      ensures ListOk() && Items == StableSort.Insert(cmp, old(Items), x) && Nodes == old(Nodes) + {x}
      ensures Index == old(Index)[x.key := x]
    {
      if head == null {
        AppendItem(x);
      } else {
        var iter, i := FirstGreater(head, x, cmp, Items);
        StableSort.InsertPosition(cmp, Items, x, i);
        if iter != null {
          InsertItemBefore(iter, x, i);
        } else {
          AppendItem(x);
        }
      }
    }

    method InsertItemBefore(iter: Item, x: Item, ghost i: nat)
      requires ListOk() && x !in Nodes && x.key !in Index && |Items| < MAX_ITEMS
      requires i < |Items| && Items[i] == iter
      modifies `head, `tail, `Items, `Nodes, `Index, x`next, x`prev, Nodes`next, Nodes`prev
      ensures ListOk() && Items == Inserted(old(Items), i, x) && Nodes == old(Nodes) + {x}
      ensures Index == old(Index)[x.key := x]
    {
      hide Linked, Keyed;
      KeyedFacts(Items, Nodes, Index);
      KeyedInsert(Items, Nodes, Index, i, x);
      InsertBefore(iter, x, Items, i);
      if x.prev == null {
        head := x;
      }
      Items, Nodes, Index := Inserted(Items, i, x), Nodes + {x}, Index[x.key := x];
    }

    /** The list part of HASH_DELETE_HH, when other items remain. */
    method UnlinkItem(x: Item, ghost i: nat)
      requires ListOk() && i < |Items| && Items[i] == x && |Items| > 1
      modifies `head, `tail, `Items, `Nodes, `Index, Nodes`next, Nodes`prev
      ensures ListOk() && Items == Without(old(Items), i) && Nodes == old(Nodes) - {x}
      ensures Index == old(Index) - {x.key} && head != null
    {
      hide Keyed, Linked, Without, At;
      ghost var s, S, m := Without(Items, i), Nodes - {x}, Index - {x.key};
      UnlinkFacts(i);
      if x == tail {
        tail := x.prev;
      }
      if x.prev == null {
        head := x.next;
      }
      Bypass(x, Items, i);
      Items, Nodes, Index := s, S, m;
    }

    /** What the list is without its i-th item. */
    lemma UnlinkFacts(i: nat)
      requires ListOk() && i < |Items| && |Items| > 1
      ensures var x := Items[i];
        var s, S, m := Without(Items, i), Nodes - {x}, Index - {x.key};
        && Keyed(s, S, m) && |s| == |Items| - 1 && At(s, 0) != null && x in Nodes
        && At(s, 0) == (if x.prev == null then x.next else head)
        && At(s, |s| - 1) == (if x == tail then x.prev else tail)
        && (forall y :: y in Items ==> y in Nodes)
    {
      hide Keyed, Linked, Without;
      ghost var s, S, m := Without(Items, i), Nodes - {Items[i]}, Index - {Items[i].key};
      KeyedFacts(Items, Nodes, Index);
      KeyedRemove(Items, Nodes, Index, i);
      KeyedFacts(s, S, m);
      LinkedAt(Items, i);
      WithoutEnds(Items, i);
    }

    /** The bucket part of HASH_DELETE_HH. */
    method RemoveFromTable(x: Item, ghost S: set<Item>)
      requires x in S && BucketsOk(S) && 0 < numItems
      modifies buckets, `Chains, `numItems, S`hhNext, S`hhPrev
      ensures BucketsOk(S - {x}) && numItems == old(numItems) - 1
    {
      hide Indexes;
      ghost var i := ChainPosition(buckets[..], Chains, S, x);
      var b := ToBucket(x.hashv, buckets.Length);
      Remove(buckets, b, x, Chains, i, S);
      Chains := Chains[b := Without(Chains[b], i)];
      numItems := numItems - 1;
    }

    /** The table is freed. */
    method FreeTable()
      requires ListOk()
      modifies `head, `tail, `Items, `Nodes, `Index
      ensures ListOk() && head == null && Items == [] && Nodes == {} && Index == map[]
    {
      head, tail := null, null;
      Items, Nodes, Index := [], {}, map[];
    }

    /** Nothing is left of a table without its only item. */
    lemma OnlyItem(x: Item)
      requires ListOk() && x in Nodes && |Items| == 1
      ensures Removed(Items, x) == [] && Nodes - {x} == {} && Index - {x.key} == map[]
    {
      ListFacts();
      assert Items == [x];
      KeyedRemove(Items, Nodes, Index, 0);
    }

    /**
      HASH_DELETE_HH. Null links are those of the only item, and deleting that frees the table;
      but an item that was never added has them too, and then every other item is lost.
     */
    method Delete(x: Item)
      requires Valid() && (x in Nodes || (head != null && x.prev == null && x.next == null))
      modifies this, buckets, Nodes`next, Nodes`prev, Nodes`hhNext, Nodes`hhPrev
      ensures Valid() && buckets == old(buckets)
      ensures Items == if x in old(Nodes) then Removed(old(Items), x) else []
      ensures Nodes == if x in old(Nodes) then old(Nodes) - {x} else {}
      ensures Index == if x in old(Nodes) then old(Index) - {x.key} else map[]
    {
      hide BucketsOk, ListOk, Removed, Without;
      ListFacts();
      if x.prev == null && x.next == null {
        if x in Nodes {
          ghost var i := Position(x);
          OnlyItem(x);
        }
        FreeTable();
      } else {
        ghost var i := Position(x);
        ghost var S := Nodes;
        UnlinkItem(x, i);
        ListFacts();
        RemoveFromTable(x, S);
      }
    }

    lemma Position(x: Item) returns (i: nat)
      requires ListOk() && x in Nodes
      ensures i < |Items| && Items[i] == x && Removed(Items, x) == Without(Items, i)
      ensures x.prev == null && x.next == null <==> |Items| == 1
    {
      hide Keyed, Linked, Removed, Without;
      i := KeyedPosition(Items, Nodes, Index, x);
      LinkedAt(Items, i);
    }

    /** HASH_SRT: the list is relinked in place into its stable sort; the bucket chains stay as they are. */
    method Sort(cmp: (Item, Item) -> int)
      requires Valid() && StableSort.TotalPreorder(cmp, Nodes)
      modifies `head, `tail, `Items, Nodes`next, Nodes`prev
      ensures Valid() && Items == StableSort.Sort(cmp, old(Items))
    {
      hide BucketsOk, Keyed, Linked, StableSort.Sort, StableSort.TotalPreorder, StableSort.Within;
      if head != null {
        ghost var s := StableSort.Sort(cmp, Items);
        SortFacts(cmp);
        head, tail := HashSort.SortInPlace(head, cmp, Items, Nodes);
        Items := s;
      } else {
        StableSort.SortLength(cmp, Items);
      }
    }

    /** The sorted list has the items of the list. */
    lemma SortFacts(cmp: (Item, Item) -> int)
      requires ListOk()
      ensures StableSort.Within(Items, Nodes)
      ensures Keyed(StableSort.Sort(cmp, Items), Nodes, Index) && |StableSort.Sort(cmp, Items)| == |Items|
    {
      hide Keyed, Linked, StableSort.Sort;
      KeyedFacts(Items, Nodes, Index);
      StableSort.SortContents(cmp, Items);
      StableSort.SortLength(cmp, Items);
      KeyedReorder(Items, Nodes, Index, StableSort.Sort(cmp, Items));
    }
  }
}
