/**
  Whole runs of the intrusive table: whatever is added, deleted and looked up, it stands
  for the ordered table a plain program would keep, and its own check always passes.
 */
module HashRun {
  import opened HashItem
  import opened HashList
  import opened HashBuckets
  import OrderedTable
  import HashTable
  import HashFsck

  type Plain = OrderedTable.Table<Key, Item>

  /** What a user of the table does: it looks a key up before adding or deleting. */
  datatype Op = AddIfAbsent(key: Key) | DeleteIfPresent(key: Key) | Find(key: Key)

  function Take(o: Plain, op: Op, x: Item): (p: Plain)
    requires o.Ok()
    ensures p.Ok()
  {
    match op
    case AddIfAbsent(key) => if key in o.entries then o else o.Add(key, x)
    case DeleteIfPresent(key) => if key in o.entries then o.Remove(key) else o
    case Find(_) => o
  }

  /** The ordered table after a run, the i-th operation adding the i-th item if it adds any. */
  function After(ops: seq<Op>, items: seq<Item>): (p: Plain)
    requires |items| == |ops|
    ensures p.Ok()
  {
    if ops == [] then OrderedTable.Table([], map[])
    else
      var n := |ops| - 1;
      Take(After(ops[..n], items[..n]), ops[n], items[n])
  }

  /**
    What the table asks of an addition: room in its 32-bit item count, and an item that is
    not in the table. An item that was deleted can be added again, under any key.
   */
  predicate Possible(o: Plain, op: Op, x: Item) {
    op.AddIfAbsent? && op.key !in o.entries ==>
      |o.order| < MAX_ITEMS && forall k :: k in o.entries ==> o.entries[k] != x
  }

  /** The keys of the items are these, in this order. */
  ghost predicate KeysAre(items: seq<Item>, keys: seq<Key>)
    reads items`key
  {
    |items| == |keys| && forall i :: 0 <= i < |items| ==> items[i].key == keys[i]
  }

  /** The same keys in the same order, and the same item under each. */
  ghost predicate Stands(t: HashTable.Table, o: Plain)
    reads t`Items, t`Index, t.Items`key
  {
    KeysAre(t.Items, o.order) && t.Index == o.entries
  }

  function Lookup(o: Plain, key: Key): Item? {
    if key in o.entries then o.entries[key] else null
  }

  lemma {:induction false} RemovedKeys(items: seq<Item>, keys: seq<Key>, x: Item)
    requires KeysAre(items, keys) && OrderedTable.NoRepeats(keys) && x in items
    ensures KeysAre(Removed(items, x), OrderedTable.Dropped(keys, x.key))
  {
    if items[0] == x {
    } else {
      RemovedKeys(items[1..], keys[1..], x);
    }
  }

  /** The items in the table are the values of the plain one. */
  lemma NotInside(t: HashTable.Table, o: Plain, x: Item)
    requires t.ListOk() && Stands(t, o) && forall k :: k in o.entries ==> o.entries[k] != x
    ensures x !in t.Nodes
  {
  }

  method AddNew(t: HashTable.Table, key: Key, x: Item, ghost o: Plain)
    requires t.Valid() && o.Ok() && Stands(t, o) && key !in o.entries && x !in t.Nodes && |t.Items| < MAX_ITEMS
    modifies t, t.buckets, x, t.Nodes`next, t.Nodes`hhNext, t.Nodes`hhPrev
    ensures t.Valid() && Stands(t, o.Add(key, x))
    ensures t.Nodes == old(t.Nodes) + {x} && (t.buckets == old(t.buckets) || fresh(t.buckets))
  {
    hide Keyed, Linked, HashTable.Table.BucketsOk, HashTable.Table.Expanded, HashTable.Table.Expands;
    KeyedFacts(t.Items, t.Nodes, t.Index);
    t.Add(x, key);
  }

  method DeleteOld(t: HashTable.Table, x: Item, ghost o: Plain)
    requires t.Valid() && o.Ok() && Stands(t, o) && x.key in o.entries && o.entries[x.key] == x
    modifies t, t.buckets, t.Nodes`next, t.Nodes`prev, t.Nodes`hhNext, t.Nodes`hhPrev
    ensures t.Valid() && Stands(t, o.Remove(x.key))
    ensures t.Nodes <= old(t.Nodes) && t.buckets == old(t.buckets)
  {
    hide Linked, Removed, OrderedTable.Dropped, HashTable.Table.BucketsOk;
    InTheList(t, x);
    RemovedKeys(t.Items, o.order, x);
    t.Delete(x);
  }

  /** Deleting an item that was never added empties a table that has items. */
  method DeleteUnfiled(t: HashTable.Table, x: Item, ghost o: Plain)
    requires t.Valid() && o.Ok() && Stands(t, o) && o.entries != map[]
    requires x !in t.Nodes && x.prev == null && x.next == null
    modifies t, t.buckets, t.Nodes`next, t.Nodes`prev, t.Nodes`hhNext, t.Nodes`hhPrev
    ensures t.Valid() && Stands(t, OrderedTable.Table([], map[]))
  {
    hide HashTable.Table.BucketsOk, HashTable.Table.ListOk;
    t.ListFacts();
    t.Delete(x);
  }

  lemma InTheList(t: HashTable.Table, x: Item)
    requires t.ListOk() && x.key in t.Index && t.Index[x.key] == x
    ensures x in t.Nodes && x in t.Items
  {
  }

  lemma FoundKey(t: HashTable.Table, key: Key)
    requires t.ListOk() && key in t.Index
    ensures t.Index[key].key == key
  {
  }

  /** One operation. */
  method Perform(t: HashTable.Table, op: Op, x: Item, ghost o: Plain) returns (hit: Item?)
    requires t.Valid() && o.Ok() && Stands(t, o) && Possible(o, op, x)
    modifies t, t.buckets, x, t.Nodes`next, t.Nodes`prev, t.Nodes`hhNext, t.Nodes`hhPrev
    ensures t.Valid() && Stands(t, Take(o, op, x))
    ensures t.Nodes <= old(t.Nodes) + {x} && (t.buckets == old(t.buckets) || fresh(t.buckets))
    ensures hit == Lookup(o, op.key)
  {
    hide Keyed, Linked, HashTable.Table.BucketsOk;
    hit := t.Find(op.key);
    match op {
      case AddIfAbsent(key) =>
        if hit == null {
          NotInside(t, o, x);
          AddNew(t, key, x, o);
        }
      case DeleteIfPresent(key) =>
        if hit != null {
          FoundKey(t, key);
          DeleteOld(t, hit, o);
        }
      case Find(_) =>
    }
  }

  /** Every addition of the run is possible when it comes. */
  ghost predicate AllPossible(ops: seq<Op>, items: seq<Item>)
    requires |items| == |ops|
  {
    forall i :: 0 <= i < |ops| ==> Possible(After(ops[..i], items[..i]), ops[i], items[i])
  }

  /** What every look-up of the run found. */
  ghost predicate AllFound(ops: seq<Op>, items: seq<Item>, found: seq<Item?>)
    requires |items| == |ops| && |found| <= |ops|
  {
    forall i :: 0 <= i < |found| ==> found[i] == Lookup(After(ops[..i], items[..i]), ops[i].key)
  }

  /** A run from an empty table; items may come back. */
  method Replay(hash: Key -> nat, ops: seq<Op>, items: seq<Item>)
    returns (t: HashTable.Table, found: seq<Item?>, count: nat, healthy: bool)
    requires |items| == |ops| && AllPossible(ops, items)
    modifies items
    ensures t.Valid() && Stands(t, After(ops, items)) && count == |After(ops, items).entries|
    ensures |found| == |ops| && AllFound(ops, items, found)
    ensures healthy
  {
    hide KeysAre, Take, After, Possible, HashTable.Table.Valid, Lookup;
    t := new HashTable.Table(hash);
    found, healthy := [], true;
    StandsEmpty(t);
    for i := 0 to |ops|
      invariant fresh(t) && fresh(t.buckets) && t.Valid() && healthy
      invariant forall x :: x in t.Nodes ==> x in items
      invariant Stands(t, After(ops[..i], items[..i]))
      invariant |found| == i && AllFound(ops, items, found)
    {
      AfterStep(ops, items, i);
      var hit := Perform(t, ops[i], items[i], After(ops[..i], items[..i]));
      found := found + [hit];
      var ok := HashFsck.FsckValid(t);
      healthy := healthy && ok;
    }
    assert ops[..|ops|] == ops && items[..|ops|] == items;
    count := t.Count();
  }

  lemma AfterStep(ops: seq<Op>, items: seq<Item>, i: nat)
    requires |items| == |ops| && i < |ops| && AllPossible(ops, items)
    ensures After(ops[..i], items[..i]).Ok() && Possible(After(ops[..i], items[..i]), ops[i], items[i])
    ensures After(ops[..i + 1], items[..i + 1]) == Take(After(ops[..i], items[..i]), ops[i], items[i])
  {
    assert ops[..i + 1][..i] == ops[..i] && items[..i + 1][..i] == items[..i];
  }

  lemma StandsEmpty(t: HashTable.Table)
    requires t.Items == [] && t.Index == map[]
    ensures Stands(t, After([], []))
  {
  }

  // ---- an item comes back ----------------------------------------------------

  ghost predicate OneKeyEach(o: Plain) {
    forall a, b :: a in o.entries && b in o.entries && o.entries[a] == o.entries[b] ==> a == b
  }

  lemma OneKeyOn(o: Plain, op: Op, x: Item)
    requires o.Ok() && OneKeyEach(o) && Possible(o, op, x)
    ensures OneKeyEach(Take(o, op, x))
  {
  }

  lemma {:induction false} ItemsHaveOneKey(ops: seq<Op>, items: seq<Item>)
    requires |items| == |ops| && AllPossible(ops, items)
    ensures OneKeyEach(After(ops, items))
  {
    hide Take, Possible;
    if ops == [] {
    } else {
      var n := |ops| - 1;
      PossiblePrefix(ops, items, n);
      ItemsHaveOneKey(ops[..n], items[..n]);
      OneKeyOn(After(ops[..n], items[..n]), ops[n], items[n]);
    }
  }

  lemma PossiblePrefix(ops: seq<Op>, items: seq<Item>, n: nat)
    requires |items| == |ops| && AllPossible(ops, items) && n <= |ops|
    ensures AllPossible(ops[..n], items[..n])
  {
    hide Possible, After;
    forall i | 0 <= i < n
      ensures Possible(After(ops[..n][..i], items[..n][..i]), ops[..n][i], items[..n][i])
    {
      assert ops[..n][..i] == ops[..i] && items[..n][..i] == items[..i];
    }
  }

  lemma PossibleOn(ops: seq<Op>, items: seq<Item>, op: Op, x: Item)
    requires |items| == |ops| && AllPossible(ops, items) && Possible(After(ops, items), op, x)
    ensures AllPossible(ops + [op], items + [x]) && After(ops + [op], items + [x]) == Take(After(ops, items), op, x)
  {
    hide Possible, Take;
    var ops', items' := ops + [op], items + [x];
    assert ops'[..|ops|] == ops && items'[..|ops|] == items;
    forall i | 0 <= i < |ops'|
      ensures Possible(After(ops'[..i], items'[..i]), ops'[i], items'[i])
    {
      if i < |ops| {
        assert ops'[..i] == ops[..i] && items'[..i] == items[..i];
      }
    }
  }

  /** The item count stays a 32-bit word. */
  lemma {:induction false} CountFits(ops: seq<Op>, items: seq<Item>)
    requires |items| == |ops| && AllPossible(ops, items)
    ensures |After(ops, items).order| <= MAX_ITEMS
  {
    if ops == [] {
    } else {
      var n := |ops| - 1;
      var o := After(ops[..n], items[..n]);
      PossiblePrefix(ops, items, n);
      CountFits(ops[..n], items[..n]);
      assert Possible(After(ops[..n], items[..n]), ops[n], items[n]);
      if ops[n].DeleteIfPresent? && ops[n].key in o.entries {
        DroppedIsShorter(o.order, ops[n].key);
      }
    }
  }

  /** A rename deletes an item and adds the same one under its new key; that is possible after any run. */
  lemma RenameIsPossible(ops: seq<Op>, items: seq<Item>, was: Key, now: Key)
    requires |items| == |ops| && AllPossible(ops, items)
    requires was in After(ops, items).entries && now !in After(ops, items).entries
    ensures var o, x := After(ops, items), After(ops, items).entries[was];
      var ops', items' := ops + [DeleteIfPresent(was)] + [AddIfAbsent(now)], items + [x] + [x];
      AllPossible(ops', items') && After(ops', items') == o.Remove(was).Add(now, x)
  {
    var o, x := After(ops, items), After(ops, items).entries[was];
    ItemsHaveOneKey(ops, items);
    CountFits(ops, items);
    PossibleOn(ops, items, DeleteIfPresent(was), x);
    DroppedIsShorter(o.order, was);
    PossibleOn(ops + [DeleteIfPresent(was)], items + [x], AddIfAbsent(now), x);
  }

  lemma {:induction false} DroppedIsShorter(s: seq<Key>, k: Key)
    requires k in s
    ensures |OrderedTable.Dropped(s, k)| == |s| - 1
  {
    if s[0] == k {
    } else {
      DroppedIsShorter(s[1..], k);
    }
  }
}
