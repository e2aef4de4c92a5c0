/** The in-place bottom-up merge sort of the application-order list. */
module HashSort {
  import opened Bits
  import opened HashItem
  import opened StableSort

  /** The items s[i..j] still carry the next links they had when the pass began. */
  ghost predicate Pending(s: seq<Item>, i: nat, j: nat)
    reads s`next
  {
    i <= j <= |s| && forall k {:trigger s[k].next} :: i <= k < j ==> s[k].next == At(s, k + 1)
  }

  /** The output so far: linked both ways, the last item's next still stale. */
  ghost predicate Emitted(out: seq<Item>, first: Item?, last: Item?)
    reads out`next, out`prev
  {
    && Distinct(out)
    && first == At(out, 0) && last == At(out, |out| - 1)
    && (forall i {:trigger out[i].next} :: 0 <= i < |out| - 1 ==> out[i].next == out[i + 1])
    && (forall i {:trigger out[i].prev} :: 0 <= i < |out| ==> out[i].prev == At(out, i - 1))
  }

  ghost predicate Apart(out: seq<Item>, s: seq<Item>, i: nat, j: nat)
    requires i <= j <= |s|
  {
    forall k :: i <= k < j ==> s[k] !in out
  }

  ghost function Just(x: Item?): set<Item> {
    if x == null then {} else {x}
  }

  /** Walks k items on from s[a]: the start of the second run, and the first run's length. */
  method SplitRun(p: Item, k: nat, ghost s: seq<Item>, ghost a: nat) returns (q: Item?, psize: nat)
    requires k > 0 && a < |s| && Pending(s, a, |s|) && p == s[a]
    ensures psize == Min(k, |s| - a) && q == At(s, a + psize)
  {
    q, psize := p, 0;
    for i := 0 to k
      invariant psize == i
      invariant a + psize < |s| && q == s[a + psize]
    {
      psize := psize + 1;
      q := q.next;
      if q == null {
        break;
      }
    }
  }

  /** Links e behind the output; the items s[i..m] and s[j..] are still to come. */
  method Emit(first: Item?, last: Item?, e: Item,
              ghost out: seq<Item>, ghost s: seq<Item>, ghost i: nat, ghost m: nat, ghost j: nat)
    returns (first': Item)
    requires Emitted(out, first, last) && e !in out
    requires Pending(s, i, m) && Pending(s, j, |s|) && Apart(out, s, i, m) && Apart(out, s, j, |s|)
    requires Apart([e], s, i, m) && Apart([e], s, j, |s|)
    modifies Just(last)`next, e`prev
    ensures Emitted(out + [e], first', e)
    ensures Pending(s, i, m) && Pending(s, j, |s|) && Apart(out + [e], s, i, m) && Apart(out + [e], s, j, |s|)
  {
    if last != null {
      last.next := e;
      first' := first;
    } else {
      first' := e;
    }
    e.prev := last;
  }

  lemma MergeTakesFirst<T>(cmp: (T, T) -> int, out: seq<T>, s: seq<T>, i: nat, m: nat, j: nat, b: nat)
    requires i < m <= j <= b <= |s| && (j == b || Le(cmp, s[i], s[j]))
    ensures out + ToMerge(cmp, s, i, m, j, b) == (out + [s[i]]) + ToMerge(cmp, s, i + 1, m, j, b)
  {
    assert s[i..m][1..] == s[i + 1..m];
    if j == b {
      assert s[i..m] == [s[i]] + s[i + 1..m];
    }
  }

  lemma MergeTakesSecond<T>(cmp: (T, T) -> int, out: seq<T>, s: seq<T>, i: nat, m: nat, j: nat, b: nat)
    requires i <= m <= j < b <= |s| && (i == m || !Le(cmp, s[i], s[j]))
    ensures out + ToMerge(cmp, s, i, m, j, b) == (out + [s[j]]) + ToMerge(cmp, s, i, m, j + 1, b)
  {
    assert s[j..b][1..] == s[j + 1..b];
    if i == m {
      assert s[j..b] == [s[j]] + s[j + 1..b];
    }
  }

  /** Picks the next item to emit, the first run winning ties, and moves on in its run. */
  method TakeNext(p: Item?, psize: nat, q: Item?, qsize: nat, cmp: (Item, Item) -> int, ghost out: seq<Item>,
                  ghost s: seq<Item>, ghost i: nat, ghost m: nat, ghost j: nat, ghost b: nat)
    returns (e: Item, p': Item?, psize': nat, q': Item?, qsize': nat, ghost i': nat, ghost j': nat)
    requires Distinct(s) && i <= m <= j <= b <= |s| && Pending(s, i, m) && Pending(s, j, |s|)
    requires psize == m - i && (psize > 0 ==> p == s[i]) && q == At(s, j)
    requires b == Min(j + qsize, |s|) && (psize != 0 || (qsize != 0 && q != null))
    requires Apart(out, s, i, m) && Apart(out, s, j, |s|)
    ensures i <= i' <= m && j <= j' <= b && i' + j' == i + j + 1 && psize' == m - i' && j' + qsize' == j + qsize
    ensures (psize' > 0 ==> p' == s[i']) && q' == At(s, j') && Pending(s, i', m) && Pending(s, j', |s|)
    ensures out + ToMerge(cmp, s, i, m, j, b) == (out + [e]) + ToMerge(cmp, s, i', m, j', b)
    ensures e in s && e !in out && Apart([e], s, i', m) && Apart([e], s, j', |s|)
  {
    hide ToMerge;
    p', psize', q', qsize', i', j' := p, psize, q, qsize, i, j;
    if psize != 0 && (qsize == 0 || q == null || cmp(p, q) <= 0) {
      MergeTakesFirst(cmp, out, s, i, m, j, b);
      e := p;
      p' := p.next;
      psize', i' := psize - 1, i + 1;
    } else {
      MergeTakesSecond(cmp, out, s, i, m, j, b);
      e := q;
      q' := q.next;
      qsize', j' := qsize - 1, j + 1;
    }
  }

  /** One turn of the merge loop: the next item is picked and linked behind the output. */
  method MergeStep(first: Item?, last: Item?, p: Item?, psize: nat, q: Item?, qsize: nat, cmp: (Item, Item) -> int,
                   ghost out: seq<Item>, ghost s: seq<Item>, ghost i: nat, ghost m: nat, ghost j: nat, ghost b: nat)
    returns (first': Item?, last': Item?, p': Item?, psize': nat, q': Item?, qsize': nat, ghost i': nat, ghost j': nat)
    requires Distinct(s) && i <= m <= j <= b <= |s| && Pending(s, i, m) && Pending(s, j, |s|)
    requires psize == m - i && (psize > 0 ==> p == s[i]) && q == At(s, j)
    requires b == Min(j + qsize, |s|) && (psize != 0 || (qsize != 0 && q != null))
    requires Emitted(out, first, last) && Apart(out, s, i, m) && Apart(out, s, j, |s|)
    modifies s`prev, Just(last)`next
    ensures i <= i' <= m && j <= j' <= b && i' + j' == i + j + 1 && psize' == m - i' && j' + qsize' == j + qsize
    ensures (psize' > 0 ==> p' == s[i']) && q' == At(s, j') && Pending(s, i', m) && Pending(s, j', |s|)
    ensures last' != null && last' in s && Emitted(out + [last'], first', last')
    ensures Apart(out + [last'], s, i', m) && Apart(out + [last'], s, j', |s|)
    ensures out + ToMerge(cmp, s, i, m, j, b) == (out + [last']) + ToMerge(cmp, s, i', m, j', b)
  {
    hide Pending, Emitted, ToMerge, Distinct;
    var e;
    e, p', psize', q', qsize', i', j' := TakeNext(p, psize, q, qsize, cmp, out, s, i, m, j, b);
    first' := Emit(first, last, e, out, s, i', m, j');
    last' := e;
  }

  /** Merges the run s[a..m] with at most insize items from s[m] on, appending to the output. */
  method MergeRuns(first: Item?, last: Item?, p0: Item, psize0: nat, q0: Item?, insize: nat, cmp: (Item, Item) -> int,
                   ghost out0: seq<Item>, ghost s: seq<Item>, ghost a: nat)
    returns (first': Item?, last': Item?, q: Item?, ghost out: seq<Item>)
    requires Distinct(s) && psize0 > 0 && a + psize0 <= |s| && Pending(s, a, |s|)
    requires p0 == s[a] && q0 == At(s, a + psize0)
    requires Emitted(out0, first, last) && Apart(out0, s, a, |s|)
    modifies s`prev, s`next, Just(last)`next
    ensures var m, b := a + psize0, Min(a + psize0 + insize, |s|);
            && out == out0 + ToMerge(cmp, s, a, m, m, b)
            && q == At(s, b) && Pending(s, b, |s|) && Apart(out, s, b, |s|)
    ensures Emitted(out, first', last') && (last' == last || last' in s)
  {
    hide Emitted, ToMerge, Distinct;
    var p: Item?, psize, qsize: nat := p0, psize0, insize;
    first', last', q := first, last, q0;
    out := out0;
    ghost var i, m, j := a, a + psize0, a + psize0;
    ghost var b := Min(a + psize0 + insize, |s|);
    ghost var goal := out0 + ToMerge(cmp, s, a, m, m, b);
    while psize != 0 || (qsize != 0 && q != null)
      invariant a <= i <= m <= j <= b && psize == m - i && j + qsize == m + insize
      invariant Pending(s, i, m) && Pending(s, j, |s|)
      invariant (psize > 0 ==> p == s[i]) && q == At(s, j)
      invariant Emitted(out, first', last')
      invariant Apart(out, s, i, m) && Apart(out, s, j, |s|)
      invariant last' == last || last' in s
      invariant out + ToMerge(cmp, s, i, m, j, b) == goal
      decreases m - i + b - j
    {
      first', last', p, psize, q, qsize, i, j := MergeStep(first', last', p, psize, q, qsize, cmp, out, s, i, m, j, b);
      out := out + [last'];
    }
    NothingToMerge(cmp, out, s, m, b);
  }

  lemma NothingToMerge<T>(cmp: (T, T) -> int, out: seq<T>, s: seq<T>, m: nat, b: nat)
    requires m <= b <= |s|
    ensures out + ToMerge(cmp, s, m, m, b, b) == out
  {
  }

  lemma PassStep<T>(cmp: (T, T) -> int, out: seq<T>, s: seq<T>, a: nat, m: nat, k: nat)
    requires a < |s| && k > 0 && m == Min(a + k, |s|)
    ensures var b := Min(m + k, |s|);
            out + PassFrom(cmp, s, a, k) == (out + ToMerge(cmp, s, a, m, m, b)) + PassFrom(cmp, s, b, k)
    ensures Min(m + k, |s|) == Min(a + 2 * k, |s|)
  {
    var b := Min(m + k, |s|);
    AppendAssociative(out, ToMerge(cmp, s, a, m, m, b), PassFrom(cmp, s, b, k));
  }

  /** Splits off the next two runs at s[a] and merges them. */
  method MergeBlock(first: Item?, last: Item?, p: Item, insize: nat, cmp: (Item, Item) -> int,
                    ghost out: seq<Item>, ghost s: seq<Item>, ghost a: nat)
    returns (first': Item?, last': Item?, q: Item?, ghost out': seq<Item>)
    requires Distinct(s) && insize > 0 && a < |s| && Pending(s, a, |s|) && p == s[a]
    requires Emitted(out, first, last) && Apart(out, s, a, |s|)
    modifies s`prev, s`next, Just(last)`next
    ensures var b := Min(a + 2 * insize, |s|);
            && q == At(s, b) && Pending(s, b, |s|) && Apart(out', s, b, |s|)
            && out' + PassFrom(cmp, s, b, insize) == out + PassFrom(cmp, s, a, insize)
    ensures Emitted(out', first', last') && (last' == last || last' in s)
  {
    hide Emitted, Distinct, ToMerge, PassFrom;
    var psize;
    q, psize := SplitRun(p, insize, s, a);
    ghost var m := a + psize;
    PassStep(cmp, out, s, a, m, insize);
    first', last', q, out' := MergeRuns(first, last, p, psize, q, insize, cmp, out, s, a);
  }

  /** One pass over the list: neighbouring runs of insize items are merged and relinked. */
  method PassInPlace(head: Item, cmp: (Item, Item) -> int, insize: nat, ghost s: seq<Item>)
    returns (list: Item, tail: Item, nmerges: nat)
    requires s != [] && s[0] == head && Linked(s) && insize > 0
    modifies s`next, s`prev
    ensures var r := MergePass(cmp, s, insize);
            |r| > 0 && Linked(r) && list == r[0] && tail == r[|r| - 1]
    ensures nmerges <= 1 <==> |s| <= 2 * insize
  {
    hide Pending, Emitted, Linked, Distinct, Apart, PassFrom, MergePass;
    StartPass(cmp, s, insize);
    var p: Item?, first: Item?, last: Item? := head, null, null;
    nmerges := 0;
    ghost var out: seq<Item>, a := [], 0;
    ghost var goal := MergePass(cmp, s, insize);
    while p != null
      invariant a <= |s| && p == At(s, a) && Pending(s, a, |s|)
      invariant Emitted(out, first, last) && Apart(out, s, a, |s|)
      invariant last == null || last in s
      invariant out + PassFrom(cmp, s, a, insize) == goal
      invariant if nmerges == 0 then a == 0 else if nmerges == 1 then a == Min(2 * insize, |s|) else |s| > 2 * insize
      decreases |s| - a
    {
      nmerges := nmerges + 1;
      first, last, p, out := MergeBlock(first, last, p, insize, cmp, out, s, a);
      a := Min(a + 2 * insize, |s|);
    }
    EndPass(cmp, s, out, insize, first, last);
    list, tail := first, last;
    EndList(list, tail, out);
  }

  lemma StartPass(cmp: (Item, Item) -> int, s: seq<Item>, insize: nat)
    requires Linked(s) && insize > 0
    ensures Pending(s, 0, |s|) && Distinct(s) && Emitted([], null, null) && Apart([], s, 0, |s|)
    ensures [] + PassFrom(cmp, s, 0, insize) == MergePass(cmp, s, insize)
  {
  }

  lemma EndPass(cmp: (Item, Item) -> int, s: seq<Item>, out: seq<Item>, insize: nat, first: Item?, last: Item?)
    requires insize > 0 && s != [] && Emitted(out, first, last)
    requires out + PassFrom(cmp, s, |s|, insize) == MergePass(cmp, s, insize)
    ensures out == MergePass(cmp, s, insize) && first != null && last != null
  {
    assert PassFrom(cmp, s, |s|, insize) == [];
    var m := Min(insize, |s|);
    assert |ToMerge(cmp, s, 0, m, m, Min(m + insize, |s|))| > 0;
  }

  method EndList(first: Item, last: Item, ghost out: seq<Item>)
    requires Emitted(out, first, last)
    modifies last`next
    ensures |out| > 0 && Linked(out) && first == out[0] && last == out[|out| - 1]
  {
    last.next := null;
  }

  /**
    HASH_SRT on a non-empty list. Run lengths are 32-bit words; the doubling can
    only wrap after the last pass.
   */
  method SortInPlace(head: Item, cmp: (Item, Item) -> int, ghost s: seq<Item>, ghost S: set<Item>)
    returns (list: Item, tail: Item)
    requires s != [] && s[0] == head && Linked(s) && |s| <= U32_SIZE
    requires TotalPreorder(cmp, S) && Within(s, S)
    modifies S`next, S`prev
    ensures var r := Sort(cmp, s); |r| == |s| && Linked(r) && list == r[0] && tail == r[|r| - 1]
  {
    var insize, looping := 1, true;
    ghost var e, cur := 0, s;
    list, tail := head, head;
    RunsOfOne(cmp, s, 0);
    while looping
      invariant cur != [] && Linked(cur) && list == cur[0]
      invariant looping ==> e <= 31 && insize == Pow2(e) && cur == SortedRuns(cmp, s, insize)
      invariant !looping ==> cur == Sort(cmp, s) && tail == cur[|cur| - 1]
      decreases looping, 32 - e
    {
      var nmerges;
      RunsWithin(cmp, s, 0, insize, S);
      PassDoublesRuns(cmp, s, insize, S);
      list, tail, nmerges := PassInPlace(list, cmp, insize, cur);
      cur := MergePass(cmp, cur, insize);
      if nmerges <= 1 {
        looping := false;
        OneRun(cmp, s, 2 * insize);
      } else {
        DoubleFits(e);
        assert U32(insize * 2) == Pow2(e + 1);
      }
      insize, e := U32(insize * 2), e + 1;
    }
    SortLength(cmp, s);
  }

  /** A run length below the list length doubles without wrapping. */
  lemma DoubleFits(e: nat)
    requires 2 * Pow2(e) < U32_SIZE
    ensures U32(Pow2(e) * 2) == Pow2(e + 1) && e < 31
  {
    if e >= 31 {
      assert Pow2(8) == 0x100 && Pow2(16) == 0x100 * Pow2(8) && Pow2(24) == 0x100 * Pow2(16);
      assert Pow2(31) == 0x80 * Pow2(24);
      Pow2Monotone(31, e);
    }
  }
}
