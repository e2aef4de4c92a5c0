/** HASH_FSCK, the table's own integrity check: what it finds, and that it finds nothing in a valid state. */
module HashFsck {
  import opened HashItem
  import opened HashList
  import opened HashBuckets
  import opened HashTable

  // ---- the chains together hold every item once ------------------------------

  function TotalLength(cs: seq<seq<Item>>): nat {
    if cs == [] then 0 else TotalLength(cs[..|cs| - 1]) + |cs[|cs| - 1]|
  }

  lemma {:induction false} TakenSize(D: set<Item>, c: seq<Item>, i: nat)
    requires i <= |c| && Distinct(c) && forall k {:trigger c[k]} :: 0 <= k < |c| ==> c[k] !in D
    ensures |Taken(D, c, i)| == |D| + i
  {
    if i == 0 {
    } else {
      TakenSize(D, c, i - 1);
      TakenContents(D, c, i - 1);
      assert c[i - 1] !in c[..i - 1];
    }
  }

  lemma {:induction false} TakenAllSize(cs: seq<seq<Item>>, S: set<Item>, n: nat)
    requires Filed(cs, S) && n <= |cs| && forall b :: 0 <= b < |cs| ==> Distinct(cs[b])
    ensures |TakenAll(cs, n)| == TotalLength(cs[..n])
  {
    if n == 0 {
    } else {
      var T, c := TakenAll(cs, n - 1), cs[n - 1];
      TakenAllSize(cs, S, n - 1);
      TakenAllContents(cs, n - 1);
      assert cs[..n][..n - 1] == cs[..n - 1];
      forall k | 0 <= k < |c|
        ensures c[k] !in T
      {
        assert InSome(cs, n - 1, c[k]) ==> false;
      }
      TakenSize(T, c, |c|);
    }
  }

  lemma IndexedTotal(bs: seq<Bucket>, cs: seq<seq<Item>>, S: set<Item>)
    requires Indexes(bs, cs, S)
    ensures TotalLength(cs) == |S|
  {
    TakenAllSize(cs, S, |cs|);
    TakenAllIsAll(cs, S);
    assert cs[..|cs|] == cs;
  }

  lemma NoItems()
    ensures TotalLength([]) == 0
  {
  }

  lemma TotalStep(cs: seq<seq<Item>>, i: nat)
    requires i < |cs|
    ensures TotalLength(cs[..i + 1]) == TotalLength(cs[..i]) + |cs[i]|
  {
    assert cs[..i + 1][..i] == cs[..i];
  }

  // ---- the check -------------------------------------------------------------

  /** Forward links lead from first through c to the end. */
  ghost predicate ChainRuns(first: Item?, c: seq<Item>)
    reads c`hhNext
  {
    first == At(c, 0) && forall k {:trigger c[k].hhNext} :: 0 <= k < |c| ==> c[k].hhNext == At(c, k + 1)
  }

  ghost predicate ChainRunsBack(c: seq<Item>, n: nat)
    requires n <= |c|
    reads c`hhPrev
  {
    forall k {:trigger c[k].hhPrev} :: 0 <= k < n ==> c[k].hhPrev == At(c, k - 1)
  }

  ghost predicate ListRuns(first: Item?, s: seq<Item>)
    reads s`next
  {
    first == At(s, 0) && forall k {:trigger s[k].next} :: 0 <= k < |s| ==> s[k].next == At(s, k + 1)
  }

  ghost predicate ListRunsBack(s: seq<Item>, n: nat)
    requires n <= |s|
    reads s`prev
  {
    forall k {:trigger s[k].prev} :: 0 <= k < n ==> s[k].prev == At(s, k - 1)
  }

  /** One chain: back links and count. */
  method CheckChain(bkt: Bucket, ghost c: seq<Item>) returns (ok: bool, count: nat)
    requires ChainRuns(bkt.hhHead, c)
    ensures count == |c| && (ok <==> ChainRunsBack(c, |c|) && bkt.count == |c|)
  {
    var thh, prev: Item? := bkt.hhHead, null;
    ok, count := true, 0;
    while thh != null
      invariant count <= |c| && thh == At(c, count) && prev == At(c, count - 1)
      invariant ok <==> ChainRunsBack(c, count)
      decreases |c| - count
    {
      if prev != thh.hhPrev {
        ok := false;
      }
      count := count + 1;
      prev := thh;
      thh := thh.hhNext;
    }
    if bkt.count != count {
      ok := false;
    }
  }

  /** The application-order list: back links and count. */
  method CheckList(head: Item?, ghost s: seq<Item>) returns (ok: bool, count: nat)
    requires ListRuns(head, s)
    ensures count == |s| && (ok <==> ListRunsBack(s, |s|))
  {
    var thh, prev: Item? := head, null;
    ok, count := true, 0;
    while thh != null
      invariant count <= |s| && thh == At(s, count) && prev == At(s, count - 1)
      invariant ok <==> ListRunsBack(s, count)
      decreases |s| - count
    {
      count := count + 1;
      if prev != thh.prev {
        ok := false;
      }
      prev := thh;
      thh := thh.next;
    }
  }

  /** Every chain and the list can be walked to their ends. */
  ghost predicate Walkable(t: Table, cs: seq<seq<Item>>, s: seq<Item>)
    reads t, t.buckets, s`next, (set b, i | 0 <= b < |cs| && 0 <= i < |cs[b]| :: cs[b][i])`hhNext
  {
    && |cs| == t.buckets.Length && (forall b :: 0 <= b < |cs| ==> ChainRuns(t.buckets[b].hhHead, cs[b]))
    && ListRuns(t.head, s)
  }

  /** The first n chains have their back links and counts right. */
  ghost predicate SoundChains(bs: seq<Bucket>, cs: seq<seq<Item>>, n: nat)
    requires n <= |bs| == |cs|
    reads (set b, i | 0 <= b < |cs| && 0 <= i < |cs[b]| :: cs[b][i])`hhPrev
  {
    forall b :: 0 <= b < n ==> ChainRunsBack(cs[b], |cs[b]|) && bs[b].count == |cs[b]|
  }

  /** HASH_FSCK passes exactly when all back links, chain counts and both totals are right. */
  method Fsck(t: Table, ghost cs: seq<seq<Item>>, ghost s: seq<Item>) returns (ok: bool)
    requires t.head != null ==> Walkable(t, cs, s)
    ensures t.head == null ==> ok
    ensures t.head != null ==>
      (ok <==> SoundChains(t.buckets[..], cs, |cs|) && ListRunsBack(s, |s|) && TotalLength(cs) == |s| == t.numItems)
  {
    hide TotalLength, ChainRuns, ChainRunsBack, ListRuns, ListRunsBack;
    ok := true;
    if t.head != null {
      var count := 0;
      assert TotalLength([]) == 0 by { NoItems(); }
      for i := 0 to t.buckets.Length
        invariant count == TotalLength(cs[..i]) && (ok <==> SoundChains(t.buckets[..], cs, i))
      {
        var good, n := CheckChain(t.buckets[i], cs[i]);
        TotalStep(cs, i);
        count := count + n;
        ok := ok && good;
      }
      assert cs[..|cs|] == cs;
      if count != t.numItems {
        ok := false;
      }
      var good, n := CheckList(t.head, s);
      ok := ok && good && n == t.numItems;
    }
  }

  /** It finds nothing wrong in any valid state. */
  lemma FsckPasses(t: Table)
    requires t.Valid() && t.head != null
    ensures Walkable(t, t.Chains, t.Items)
    ensures SoundChains(t.buckets[..], t.Chains, |t.Chains|) && ListRunsBack(t.Items, |t.Items|)
    ensures TotalLength(t.Chains) == |t.Items| == t.numItems
  {
    hide Keyed, Filed, Present, TotalLength;
    KeyedFacts(t.Items, t.Nodes, t.Index);
    IndexedTotal(t.buckets[..], t.Chains, t.Nodes);
    forall b | 0 <= b < |t.Chains|
      ensures ChainRuns(t.buckets[b].hhHead, t.Chains[b])
      ensures ChainRunsBack(t.Chains[b], |t.Chains[b]|) && t.buckets[b].count == |t.Chains[b]|
    {
      assert ChainOf(t.buckets[..][b], t.Chains[b]);
    }
  }

  /** HASH_FSCK where the table is used. */
  method FsckValid(t: Table) returns (ok: bool)
    requires t.Valid()
    ensures ok
  {
    hide Walkable, SoundChains, ListRunsBack;
    if t.head != null {
      FsckPasses(t);
    }
    ok := Fsck(t, t.Chains, t.Items);
  }
}
