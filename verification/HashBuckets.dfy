/** The bucket array: chains threaded through hhNext/hhPrev, their counts and the expansion statistics. */
module HashBuckets {
  import opened Bits
  import opened HashItem
  import opened HashList

  datatype Bucket = Bucket(hhHead: Item?, count: nat, expandMult: nat)

  const EMPTY_BUCKET := Bucket(null, 0, 0)

  /** The bucket a hash value selects among numBuckets, a power of two. */
  function ToBucket(hashv: nat, numBuckets: nat): (b: nat)
    requires numBuckets > 0
    ensures b < numBuckets
  {
    And(hashv, numBuckets - 1)
  }

  /** Among a power of two of buckets it is the remainder of the hash value. */
  lemma BucketIsRemainder(hashv: nat, k: nat)
    ensures ToBucket(hashv, Pow2(k)) == hashv % Pow2(k)
  {
    AndMask(hashv, k);
  }

  ghost predicate ChainOf(bkt: Bucket, c: seq<Item>)
    reads c`hhNext, c`hhPrev
  {
    bkt.hhHead == At(c, 0) && bkt.count == |c| && Chained(c)
  }

  /** Chain b holds items of S that hash to bucket b. */
  ghost predicate Filed(cs: seq<seq<Item>>, S: set<Item>)
    reads S`hashv
  {
    forall b, i :: 0 <= b < |cs| && 0 <= i < |cs[b]| ==> cs[b][i] in S && ToBucket(cs[b][i].hashv, |cs|) == b
  }

  ghost predicate Present(cs: seq<seq<Item>>, S: set<Item>)
    reads S`hashv
  {
    |cs| > 0 && forall x :: x in S ==> x in cs[ToBucket(x.hashv, |cs|)]
  }

  /** The buckets index exactly the items of S, each in the chain its hash value selects. */
  ghost predicate Indexes(bs: seq<Bucket>, cs: seq<seq<Item>>, S: set<Item>)
    reads S`hhNext, S`hhPrev, S`hashv
  {
    && |bs| == |cs| > 0
    && Filed(cs, S) && Present(cs, S)
    && (forall b :: 0 <= b < |cs| ==> ChainOf(bs[b], cs[b]))
  }

  /** Links x in front of the chain c that starts at first. */
  method LinkFront(first: Item?, x: Item, ghost c: seq<Item>)
    requires Chained(c) && first == At(c, 0) && x !in c
    modifies x`hhNext, x`hhPrev, (if first == null then {} else {first})`hhPrev
    ensures Chained([x] + c)
  {
    x.hhNext := first;
    x.hhPrev := null;
    if first != null {
      first.hhPrev := x;
    }
  }

  /** Unlinks x = c[i]; the chain's first item is x's successor if x was first. */
  method Unlink(first: Item, x: Item, ghost c: seq<Item>, ghost i: nat) returns (first': Item?)
    requires Chained(c) && i < |c| && c[i] == x && first == c[0]
    modifies c`hhNext, c`hhPrev
    ensures Chained(Without(c, i)) && first' == At(Without(c, i), 0)
  {
    first' := first;
    if first == x {
      first' := x.hhNext;
    }
    if x.hhPrev != null {
      x.hhPrev.hhNext := x.hhNext;
    }
    if x.hhNext != null {
      x.hhNext.hhPrev := x.hhPrev;
    }
  }

  ghost function Pushed(cs: seq<seq<Item>>, x: Item): seq<seq<Item>>
    requires |cs| > 0
    reads x`hashv
  {
    var b := ToBucket(x.hashv, |cs|);
    cs[b := [x] + cs[b]]
  }

  lemma PushedFiled(cs: seq<seq<Item>>, x: Item, S: set<Item>)
    requires Filed(cs, S) && Present(cs, S)
    ensures Filed(Pushed(cs, x), S + {x}) && Present(Pushed(cs, x), S + {x})
  {
  }

  lemma RemovedFiled(cs: seq<seq<Item>>, b: nat, i: nat, S: set<Item>)
    requires Filed(cs, S) && Present(cs, S) && b < |cs| && i < |cs[b]| && Distinct(cs[b])
    ensures var cs' := cs[b := Without(cs[b], i)];
            Filed(cs', S - {cs[b][i]}) && Present(cs', S - {cs[b][i]})
  {
    var x, cs' := cs[b][i], cs[b := Without(cs[b], i)];
    WithoutContents(cs[b], i);
    forall d, j | 0 <= d < |cs'| && 0 <= j < |cs'[d]|
      ensures cs'[d][j] in S - {x} && ToBucket(cs'[d][j].hashv, |cs'|) == d
    {
      if d == b {
        assert cs'[b][j] in cs'[b];
      }
    }
    forall y | y in S - {x}
      ensures y in cs'[ToBucket(y.hashv, |cs'|)]
    {
    }
  }

  /** The items of other chains are not touched by work on chain b. */
  lemma OtherChains(cs: seq<seq<Item>>, S: set<Item>, b: nat)
    requires Filed(cs, S) && b < |cs|
    ensures forall j :: 0 <= j < |cs[b]| ==> cs[b][j] in S
    ensures forall d, j :: 0 <= d < |cs| && d != b && 0 <= j < |cs[d]| ==> cs[d][j] !in cs[b] && cs[d][j] in S
  {
  }

  /** Puts x in front of its chain; the bucket's count grows by one and its multiplier becomes mult. */
  method Push(bk: array<Bucket>, b: nat, mult: nat, x: Item, ghost cs: seq<seq<Item>>, ghost S: set<Item>)
    requires Indexes(bk[..], cs, S) && x !in S && b == ToBucket(x.hashv, bk.Length)
    modifies bk, x`hhNext, x`hhPrev, S`hhPrev
    ensures bk[..] == old(bk[..])[b := Bucket(x, old(bk[b].count) + 1, mult)]
    ensures Indexes(bk[..], Pushed(cs, x), S + {x})
  {
    hide Filed, Present, Chained;
    PushedFiled(cs, x, S);
    OtherChains(cs, S, b);
    assert ChainOf(bk[b], cs[b]);
    ghost var first := bk[b].hhHead;
    assert first != null ==> first in cs[b];
    LinkFront(bk[b].hhHead, x, cs[b]);
    forall d | 0 <= d < |cs| && d != b
      ensures ChainOf(bk[d], cs[d])
    {
      assert old(ChainOf(bk[d], cs[d]));
    }
    bk[b] := Bucket(x, bk[b].count + 1, mult);
    ghost var cs' := Pushed(cs, x);
    assert ChainOf(bk[b], cs'[b]);
    assert forall d :: 0 <= d < |cs'| ==> ChainOf(bk[..][d], cs'[d]);
  }

  /** HASH_DEL_IN_BKT: takes x, the i-th item of its chain, out of bucket b. */
  method Remove(bk: array<Bucket>, b: nat, x: Item, ghost cs: seq<seq<Item>>, ghost i: nat, ghost S: set<Item>)
    requires Indexes(bk[..], cs, S) && b < bk.Length && i < |cs[b]| && cs[b][i] == x
    modifies bk, S`hhNext, S`hhPrev
    ensures bk[..] == old(bk[..])[b := Bucket(At(Without(cs[b], i), 0), old(bk[b].count) - 1, old(bk[b].expandMult))]
    ensures Indexes(bk[..], cs[b := Without(cs[b], i)], S - {x})
  {
    hide Filed, Present;
    assert ChainOf(bk[b], cs[b]);
    ghost var cs' := cs[b := Without(cs[b], i)];
    assert Distinct(cs[b]);
    RemovedFiled(cs, b, i, S);
    OtherChains(cs, S, b);
    hide Chained, Distinct;
    var first := Unlink(bk[b].hhHead, x, cs[b], i);
    forall d | 0 <= d < |cs| && d != b
      ensures ChainOf(bk[d], cs[d])
    {
      assert old(ChainOf(bk[d], cs[d]));
    }
    bk[b] := Bucket(first, bk[b].count - 1, bk[b].expandMult);
    assert ChainOf(bk[b], cs'[b]);
    assert forall d :: 0 <= d < |cs'| ==> ChainOf(bk[..][d], cs'[d]);
    assert Filed(cs', S - {x}) && Present(cs', S - {x});
  }

  lemma ChainPosition(bs: seq<Bucket>, cs: seq<seq<Item>>, S: set<Item>, x: Item) returns (i: nat)
    requires Indexes(bs, cs, S) && x in S
    ensures var b := ToBucket(x.hashv, |cs|);
            i < |cs[b]| && cs[b][i] == x && |bs| == |cs|
  {
    var b := ToBucket(x.hashv, |cs|);
    assert x in cs[b];
    i :| 0 <= i < |cs[b]| && cs[b][i] == x;
  }

  // ---- doubling --------------------------------------------------------------

  function CeilDiv(a: nat, b: nat): nat
    requires b > 0
  {
    (a + b - 1) / b
  }

  /** The multiplier of a bucket of count items when the ideal chain length is ideal. */
  function MultFor(count: nat, ideal: nat): nat
    requires ideal > 0
  {
    if count <= ideal then 0
    else if count - ideal <= CeilDiv(count, ideal) then count - ideal else CeilDiv(count, ideal)
  }

  function Excess(count: nat, ideal: nat): nat {
    if count <= ideal then 0 else count - ideal
  }

  /** How many items sit beyond the ideal chain length, over all buckets. */
  ghost function TotalExcess(bs: seq<Bucket>, ideal: nat): nat {
    if bs == [] then 0 else Excess(bs[0].count, ideal) + TotalExcess(bs[1..], ideal)
  }

  lemma {:induction false} ExcessUpdate(bs: seq<Bucket>, b: nat, v: Bucket, ideal: nat)
    requires b < |bs|
    ensures TotalExcess(bs[b := v], ideal)
         == TotalExcess(bs, ideal) - Excess(bs[b].count, ideal) + Excess(v.count, ideal)
  {
    if b == 0 {
      assert bs[b := v][1..] == bs[1..];
    } else {
      assert bs[b := v][1..] == bs[1..][b - 1 := v];
      ExcessUpdate(bs[1..], b - 1, v, ideal);
    }
  }

  lemma CeilDivBounds(a: nat, b: nat)
    requires a > 0 && b > 0
    ensures (CeilDiv(a, b) - 1) * b < a <= CeilDiv(a, b) * b
  {
    var q := CeilDiv(a, b);
    assert a + b - 1 == q * b + (a + b - 1) % b;
    assert (q - 1) * b == q * b - b;
  }

  lemma CeilDivStep(a: nat, b: nat)
    requires a > 0 && b > 0
    ensures CeilDiv(a + 1, b) == if a == CeilDiv(a, b) * b then CeilDiv(a, b) + 1 else CeilDiv(a, b)
  {
    CeilDivBounds(a, b);
    var q := CeilDiv(a, b);
    assert (q - 1) * b == q * b - b && (q + 1) * b == q * b + b;
    if a == q * b {
      DivModUnique(a + 1 + b - 1, b, q + 1, 0);
    } else {
      DivModUnique(a + 1 + b - 1, b, q, a + b - q * b);
    }
  }

  /** Counting one more item changes the multiplier exactly as the expansion loop does. */
  lemma MultStep(count: nat, ideal: nat)
    requires ideal > 0
    ensures MultFor(count + 1, ideal) ==
            MultFor(count, ideal) + if count + 1 > ideal && count + 1 > MultFor(count, ideal) * ideal then 1 else 0
  {
    if count == ideal {
      CeilDivBounds(count + 1, ideal);
    } else if count > ideal {
      var q := CeilDiv(count, ideal);
      CeilDivBounds(count, ideal);
      CeilDivStep(count, ideal);
      if count - ideal < q {
        ProductMonotone(count - ideal, q - 1, ideal);
      }
    }
  }

  lemma ProductMonotone(a: int, b: int, c: nat)
    requires a <= b
    ensures a * c <= b * c
  {
    assert (b - a) * c >= 0;
  }

  /** The multiplier the expansion loop leaves on a bucket it put count items in, the product being a 32-bit word. */
  function LoopMult(count: nat, ideal: nat): nat {
    if count == 0 then 0
    else
      var m := LoopMult(count - 1, ideal);
      m + if count > ideal && count > U32(m * ideal) then 1 else 0
  }

  /** The product of the exact multiplier and the ideal length stays less than one ideal length above the count. */
  lemma MultProduct(count: nat, ideal: nat)
    requires ideal > 0
    ensures count <= ideal ==> MultFor(count, ideal) == 0
    ensures count > 0 ==> MultFor(count, ideal) * ideal < count + ideal
  {
    if count > ideal {
      var q := CeilDiv(count, ideal);
      CeilDivBounds(count, ideal);
      assert (q - 1) * ideal == q * ideal - ideal;
      ProductMonotone(MultFor(count, ideal), q, ideal);
    }
  }

  /** The product the loop compares the last item's count with is one word. */
  predicate LastProductFits(count: nat, ideal: nat)
    requires ideal > 0
  {
    count == 0 || MultFor(count - 1, ideal) * ideal < U32_SIZE
  }

  /** The loop's multiplier is exact if and only if its last product fits its word; it is never too small. */
  lemma {:induction false} LoopMultExact(count: nat, ideal: nat)
    requires 0 < ideal < U32_SIZE && count < U32_SIZE
    ensures LoopMult(count, ideal) >= MultFor(count, ideal)
    ensures LoopMult(count, ideal) == MultFor(count, ideal) <==> LastProductFits(count, ideal)
  {
    hide MultFor;
    if count <= 1 {
      MultProduct(count, ideal);
      MultProduct(0, ideal);
    } else {
      var m := MultFor(count - 1, ideal);
      LoopMultExact(count - 1, ideal);
      MultStep(count - 1, ideal);
      MultStep(count - 2, ideal);
      MultProduct(count - 1, ideal);
      ProductMonotone(MultFor(count - 2, ideal), m, ideal);
    }
  }

  /**
    Where an ideal length divides 2^32, the first chain length whose multiplier goes wrong:
    0xFC00_0002 for the ideal length 0x400_0000.
   */
  lemma FirstWrapped(ideal: nat)
    requires 2 < ideal <= 0x4000_0000 && U32_SIZE % ideal == 0
    ensures var count := U32_SIZE - ideal + 2;
            LoopMult(count, ideal) != MultFor(count, ideal) && LoopMult(count - 1, ideal) == MultFor(count - 1, ideal)
  {
    hide LoopMult;
    var q, count := U32_SIZE / ideal, U32_SIZE - ideal + 2;
    assert q * ideal == U32_SIZE;
    if q < 4 {
      ProductMonotone(q, 3, ideal);
    }
    assert (q - 2) * ideal == q * ideal - 2 * ideal && (q - 1) * ideal == q * ideal - ideal;
    ProductMonotone(3, ideal, q - 2);
    assert CeilDiv(count - 1, ideal) == q;
    DivModUnique(U32_SIZE - 1, ideal, q - 1, ideal - 1);
    assert CeilDiv(count - 2, ideal) == q - 1;
    LoopMultExact(count, ideal);
    LoopMultExact(count - 1, ideal);
  }

  /**
    The statistics of an expansion: the number of non-ideal items is exact, and every
    multiplier is what the loop's 32-bit test makes of its bucket's items.
   */
  ghost predicate Stats(bs: seq<Bucket>, ideal: nat, nonideal: nat) {
    && nonideal == TotalExcess(bs, ideal)
    && forall b :: 0 <= b < |bs| ==> bs[b].expandMult == LoopMult(bs[b].count, ideal)
  }

  /** The item count is a 32-bit word. */
  const MAX_ITEMS := 0xFFFF_FFFF

  /** The items of chain c, met in order, that go to bucket j of n buckets: last met comes first. */
  ghost function MovedTo(c: seq<Item>, j: nat, n: nat): seq<Item>
    requires n > 0
    reads c`hashv
  {
    if c == [] then []
    else
      var x := c[|c| - 1];
      (if ToBucket(x.hashv, n) == j then [x] else []) + MovedTo(c[..|c| - 1], j, n)
  }

  /** The same over all chains of cs, in bucket order. */
  ghost function MovedFromAll(cs: seq<seq<Item>>, j: nat, n: nat): seq<Item>
    requires n > 0
    reads (set b, i | 0 <= b < |cs| && 0 <= i < |cs[b]| :: cs[b][i])`hashv
  {
    if cs == [] then [] else MovedTo(cs[|cs| - 1], j, n) + MovedFromAll(cs[..|cs| - 1], j, n)
  }

  lemma StatsAt(bs: seq<Bucket>, ideal: nat, nonideal: nat, b: nat)
    requires Stats(bs, ideal, nonideal) && b < |bs|
    ensures bs[b].expandMult == LoopMult(bs[b].count, ideal)
  {
  }

  lemma StatsUpdate(bs: seq<Bucket>, ideal: nat, nonideal: nat, b: nat, v: Bucket, nonideal': nat)
    requires Stats(bs, ideal, nonideal) && b < |bs| && v.expandMult == LoopMult(v.count, ideal)
    requires nonideal' == nonideal - Excess(bs[b].count, ideal) + Excess(v.count, ideal)
    ensures Stats(bs[b := v], ideal, nonideal')
  {
    hide Excess, LoopMult;
    ExcessUpdate(bs, b, v, ideal);
  }

  /** Counts one more item in a new bucket: its multiplier and the table's non-ideal items follow. */
  method CountItem(bkt: Bucket, ideal: nat, nonideal: nat, ghost bs: seq<Bucket>, ghost b: nat, ghost x: Item)
    returns (mult: nat, nonideal': nat)
    requires Stats(bs, ideal, nonideal) && b < |bs| && bs[b] == bkt
    ensures Stats(bs[b := Bucket(x, bkt.count + 1, mult)], ideal, nonideal')
  {
    hide Stats;
    mult, nonideal' := bkt.expandMult, nonideal;
    StatsAt(bs, ideal, nonideal, b);
    if bkt.count + 1 > ideal {
      nonideal' := nonideal' + 1;
      if bkt.count + 1 > U32(mult * ideal) {
        mult := mult + 1;
      }
    }
    StatsUpdate(bs, ideal, nonideal, b, Bucket(x, bkt.count + 1, mult), nonideal');
  }

  /** The body of the expansion loop: x goes to the front of its new bucket. */
  method MoveItem(nb: array<Bucket>, x: Item, ideal: nat, nonideal: nat, ghost ncs: seq<seq<Item>>, ghost D: set<Item>)
    returns (nonideal': nat)
    requires Indexes(nb[..], ncs, D) && x !in D && Stats(nb[..], ideal, nonideal)
    modifies nb, x`hhNext, x`hhPrev, D`hhPrev
    ensures Indexes(nb[..], Pushed(ncs, x), D + {x})
    ensures Stats(nb[..], ideal, nonideal')
  {
    var b := ToBucket(x.hashv, nb.Length);
    var mult;
    mult, nonideal' := CountItem(nb[b], ideal, nonideal, nb[..], b, x);
    Push(nb, b, mult, x, ncs, D);
  }

  /** The chains ncs are ncs0 with the first i items of c moved on top. */
  ghost predicate MovedOnto(ncs: seq<seq<Item>>, ncs0: seq<seq<Item>>, c: seq<Item>, i: nat)
    requires i <= |c| && |ncs0| > 0
    reads c`hashv
  {
    |ncs| == |ncs0| && forall j :: 0 <= j < |ncs| ==> ncs[j] == MovedTo(c[..i], j, |ncs|) + ncs0[j]
  }

  lemma MovedOntoNone(ncs: seq<seq<Item>>, c: seq<Item>)
    requires |ncs| > 0
    ensures MovedOnto(ncs, ncs, c, 0)
  {
    assert forall j :: 0 <= j < |ncs| ==> [] + ncs[j] == ncs[j];
  }

  lemma MovedOntoStep(ncs: seq<seq<Item>>, ncs0: seq<seq<Item>>, c: seq<Item>, i: nat)
    requires i < |c| && |ncs0| > 0 && MovedOnto(ncs, ncs0, c, i)
    ensures MovedOnto(Pushed(ncs, c[i]), ncs0, c, i + 1)
  {
    assert c[..i + 1][..i] == c[..i];
  }

  ghost function Taken(D: set<Item>, c: seq<Item>, i: nat): set<Item>
    requires i <= |c|
  {
    if i == 0 then D else Taken(D, c, i - 1) + {c[i - 1]}
  }

  lemma {:induction false} TakenContents(D: set<Item>, c: seq<Item>, i: nat)
    requires i <= |c|
    ensures forall x :: x in Taken(D, c, i) <==> x in D || x in c[..i]
  {
    if i == 0 {
    } else {
      TakenContents(D, c, i - 1);
      assert c[..i] == c[..i - 1] + [c[i - 1]];
    }
  }

  /** The items still to be moved, linked as they were, and none of them in D. */
  ghost predicate Waiting(c: seq<Item>, i: nat, D: set<Item>)
    reads c`hhNext
  {
    && (forall k {:trigger c[k].hhNext} :: i <= k < |c| ==> c[k].hhNext == At(c, k + 1))
    && (forall k {:trigger c[k] in D} :: i <= k < |c| ==> c[k] !in D)
  }

  /** One turn of the inner loop of the expansion, on the item c[i]. */
  method MoveNext(nb: array<Bucket>, thh: Item, ideal: nat, nonideal: nat,
                  ghost c: seq<Item>, ghost i: nat, ghost ncs: seq<seq<Item>>, ghost D: set<Item>)
    returns (nxt: Item?, nonideal': nat)
    requires Indexes(nb[..], ncs, D) && Stats(nb[..], ideal, nonideal)
    requires i < |c| && c[i] == thh && Distinct(c) && Waiting(c, i, D)
    modifies nb, thh`hhNext, thh`hhPrev, D`hhPrev
    ensures Indexes(nb[..], Pushed(ncs, thh), D + {thh}) && Stats(nb[..], ideal, nonideal')
    ensures thh !in D && nxt == At(c, i + 1) && Waiting(c, i + 1, D + {thh})
  {
    hide Stats, Indexes;
    nxt := thh.hhNext;
    nonideal' := MoveItem(nb, thh, ideal, nonideal, ncs, D);
  }

  /** Moves the old chain c, item by item from its head, into the new buckets. */
  method MoveChain(nb: array<Bucket>, first: Item?, ideal: nat, nonideal: nat,
                   ghost c: seq<Item>, ghost ncs0: seq<seq<Item>>, ghost D0: set<Item>)
    returns (nonideal': nat, ghost ncs: seq<seq<Item>>, ghost D: set<Item>)
    requires |ncs0| > 0
    requires Indexes(nb[..], ncs0, D0) && Stats(nb[..], ideal, nonideal)
    requires first == At(c, 0) && Distinct(c) && Waiting(c, 0, D0)
    modifies nb, c`hhNext, c`hhPrev, D0`hhPrev
    ensures Indexes(nb[..], ncs, D) && Stats(nb[..], ideal, nonideal')
    ensures D == Taken(D0, c, |c|) && |D| == |D0| + |c|
    ensures |ncs| == |ncs0| && MovedOnto(ncs, ncs0, c, |c|)
  {
    hide Indexes, Stats, MovedOnto, Waiting, Distinct;
    var thh := first;
    nonideal', ncs, D := nonideal, ncs0, D0;
    MovedOntoNone(ncs0, c);
    ghost var i := 0;
    while thh != null
      invariant i <= |c| && thh == At(c, i) && Waiting(c, i, D)
      invariant Indexes(nb[..], ncs, D) && Stats(nb[..], ideal, nonideal')
      invariant D == Taken(D0, c, i) && |D| == |D0| + i && forall x :: x in D ==> x in D0 || x in c
      invariant |ncs| == |ncs0| && MovedOnto(ncs, ncs0, c, i)
      decreases |c| - i
    {
      ghost var x: Item := thh;
      MovedOntoStep(ncs, ncs0, c, i);
      thh, nonideal' := MoveNext(nb, thh, ideal, nonideal', c, i, ncs, D);
      ncs, D, i := Pushed(ncs, x), D + {x}, i + 1;
    }
    assert i == |c|;
  }

  /** No chain is longer than the number of items indexed. */
  lemma ChainsSmall(bs: seq<Bucket>, cs: seq<seq<Item>>, S: set<Item>, b: nat)
    requires Indexes(bs, cs, S) && b < |cs|
    ensures bs[b].count <= |S|
  {
    assert ChainOf(bs[b], cs[b]);
    DistinctSize(cs[b], S);
  }

  lemma {:induction false} DistinctSize(c: seq<Item>, S: set<Item>)
    requires Distinct(c) && forall i :: 0 <= i < |c| ==> c[i] in S
    ensures |c| <= |S|
  {
    if c == [] {
    } else {
      DistinctSize(c[1..], S - {c[0]});
    }
  }

  ghost function TakenAll(cs: seq<seq<Item>>, b: nat): set<Item>
    requires b <= |cs|
  {
    if b == 0 then {} else Taken(TakenAll(cs, b - 1), cs[b - 1], |cs[b - 1]|)
  }

  ghost predicate InSome(cs: seq<seq<Item>>, b: nat, x: Item)
    requires b <= |cs|
  {
    exists d :: 0 <= d < b && x in cs[d]
  }

  lemma {:induction false} TakenAllContents(cs: seq<seq<Item>>, b: nat)
    requires b <= |cs|
    ensures forall x :: x in TakenAll(cs, b) <==> InSome(cs, b, x)
  {
    if b == 0 {
    } else {
      TakenAllContents(cs, b - 1);
      TakenContents(TakenAll(cs, b - 1), cs[b - 1], |cs[b - 1]|);
      assert cs[b - 1][..|cs[b - 1]|] == cs[b - 1];
    }
  }

  lemma TakenAllIsAll(cs: seq<seq<Item>>, S: set<Item>)
    requires Filed(cs, S) && Present(cs, S)
    ensures TakenAll(cs, |cs|) == S
  {
    hide TakenAll;
    var T := TakenAll(cs, |cs|);
    TakenAllContents(cs, |cs|);
    forall x | x in S
      ensures x in T
    {
      assert x in cs[ToBucket(x.hashv, |cs|)];
      assert InSome(cs, |cs|, x);
    }
    forall x | x in T
      ensures x in S
    {
      assert InSome(cs, |cs|, x);
      var d :| 0 <= d < |cs| && x in cs[d];
    }
  }

  /** The old chains from b on are still linked. */
  ghost predicate LinkedFrom(cs: seq<seq<Item>>, b: nat)
    reads (set d, i | 0 <= d < |cs| && 0 <= i < |cs[d]| :: cs[d][i])`hhNext
  {
    forall d, k {:trigger cs[d][k].hhNext} :: b <= d < |cs| && 0 <= k < |cs[d]| ==> cs[d][k].hhNext == At(cs[d], k + 1)
  }

  /** The new chains hold what the first b old chains sent them. */
  ghost predicate MovedUpTo(ncs: seq<seq<Item>>, cs: seq<seq<Item>>, b: nat)
    requires b <= |cs|
    reads (set d, i | 0 <= d < |cs| && 0 <= i < |cs[d]| :: cs[d][i])`hashv
  {
    |ncs| > 0 && forall j :: 0 <= j < |ncs| ==> ncs[j] == MovedFromAll(cs[..b], j, |ncs|)
  }

  lemma MovedUpToStep(ncs: seq<seq<Item>>, ncs': seq<seq<Item>>, cs: seq<seq<Item>>, b: nat)
    requires b < |cs| && |ncs| > 0 && MovedUpTo(ncs, cs, b) && MovedOnto(ncs', ncs, cs[b], |cs[b]|)
    ensures MovedUpTo(ncs', cs, b + 1)
  {
    assert cs[..b + 1][..b] == cs[..b] && cs[b][..|cs[b]|] == cs[b];
  }

  lemma {:induction false} NoExcess(bs: seq<Bucket>, ideal: nat)
    requires forall b :: 0 <= b < |bs| ==> bs[b].count == 0
    ensures TotalExcess(bs, ideal) == 0
  {
    if bs == [] {
    } else {
      NoExcess(bs[1..], ideal);
    }
  }

  /** What the expansion reads off the old bucket array. */
  ghost predicate Heads(bs: seq<Bucket>, cs: seq<seq<Item>>) {
    |bs| == |cs| && forall d :: 0 <= d < |cs| ==> bs[d].hhHead == At(cs[d], 0) && Distinct(cs[d])
  }

  lemma StartWaiting(bs: seq<Bucket>, cs: seq<seq<Item>>, S: set<Item>)
    requires Indexes(bs, cs, S)
    ensures Filed(cs, S) && Present(cs, S) && Heads(bs, cs) && LinkedFrom(cs, 0)
  {
    forall d | 0 <= d < |cs|
      ensures bs[d].hhHead == At(cs[d], 0) && Chained(cs[d])
    {
      assert ChainOf(bs[d], cs[d]);
    }
  }

  lemma StartEmpty(bs: seq<Bucket>, ncs: seq<seq<Item>>, cs: seq<seq<Item>>, ideal: nat)
    requires |bs| == |ncs| > 0 && ideal > 0
    requires forall j :: 0 <= j < |bs| ==> bs[j] == EMPTY_BUCKET && ncs[j] == []
    ensures Indexes(bs, ncs, {}) && Stats(bs, ideal, 0) && MovedUpTo(ncs, cs, 0) && TakenAll(cs, 0) == {}
  {
    NoExcess(bs, ideal);
  }

  lemma OtherChainsLater(cs: seq<seq<Item>>, S: set<Item>, b: nat)
    requires Filed(cs, S) && b <= |cs|
    ensures forall d, k :: b <= d < |cs| && 0 <= k < |cs[d]| ==> cs[d][k] !in TakenAll(cs, b)
    ensures TakenAll(cs, b) <= S
  {
    hide TakenAll;
    TakenAllContents(cs, b);
    forall x | x in TakenAll(cs, b)
      ensures x in S && ToBucket(x.hashv, |cs|) < b
    {
      assert InSome(cs, b, x);
      var d :| 0 <= d < b && x in cs[d];
    }
  }

  /** One turn of the outer loop of the expansion: the old chain b moves to the new buckets. */
  method MoveBucket(nb: array<Bucket>, first: Item?, ideal: nat, nonideal: nat,
                    ghost cs: seq<seq<Item>>, ghost b: nat, ghost ncs: seq<seq<Item>>, ghost S: set<Item>)
    returns (nonideal': nat, ghost ncs': seq<seq<Item>>)
    requires Filed(cs, S)
    requires b < |cs| && first == At(cs[b], 0) && Distinct(cs[b]) && LinkedFrom(cs, b) && TakenAll(cs, b) <= S
    requires Indexes(nb[..], ncs, TakenAll(cs, b)) && Stats(nb[..], ideal, nonideal)
    requires |ncs| > 0 && MovedUpTo(ncs, cs, b)
    modifies nb, S`hhNext, S`hhPrev
    ensures Indexes(nb[..], ncs', TakenAll(cs, b + 1)) && Stats(nb[..], ideal, nonideal')
    ensures |ncs'| == |ncs| && MovedUpTo(ncs', cs, b + 1)
    ensures LinkedFrom(cs, b + 1) && TakenAll(cs, b + 1) <= S
  {
    hide Indexes, Stats, MovedOnto, MovedUpTo, Filed, Present, Distinct;
    OtherChains(cs, S, b);
    OtherChainsLater(cs, S, b);
    OtherChainsLater(cs, S, b + 1);
    ghost var D;
    nonideal', ncs', D := MoveChain(nb, first, ideal, nonideal, cs[b], ncs, TakenAll(cs, b));
    MovedUpToStep(ncs, ncs', cs, b);
  }

  /** The outer loop of the expansion: every old chain is moved into the doubled bucket array nb. */
  method Redistribute(bk: array<Bucket>, nb: array<Bucket>, ideal: nat, ghost cs: seq<seq<Item>>, ghost S: set<Item>)
    returns (nonideal: nat, ghost ncs: seq<seq<Item>>)
    requires Indexes(bk[..], cs, S) && bk != nb && nb.Length == 2 * bk.Length
    requires forall j :: 0 <= j < nb.Length ==> nb[j] == EMPTY_BUCKET
    requires ideal > 0
    modifies nb, S`hhNext, S`hhPrev
    ensures Indexes(nb[..], ncs, S) && Stats(nb[..], ideal, nonideal)
    ensures |ncs| == nb.Length && MovedUpTo(ncs, cs, |cs|)
  {
    hide Indexes, Stats, MovedUpTo, Filed, Present, Distinct, LinkedFrom, TakenAll;
    StartWaiting(bk[..], cs, S);
    nonideal := 0;
    ncs := seq(nb.Length, j => []);
    StartEmpty(nb[..], ncs, cs, ideal);
    TakenAllIsAll(cs, S);
    for b := 0 to bk.Length
      invariant Indexes(nb[..], ncs, TakenAll(cs, b)) && Stats(nb[..], ideal, nonideal)
      invariant LinkedFrom(cs, b) && TakenAll(cs, b) <= S
      invariant |ncs| == nb.Length && MovedUpTo(ncs, cs, b)
    {
      nonideal, ncs := MoveBucket(nb, bk[b].hhHead, ideal, nonideal, cs, b, ncs, S);
    }
  }

  // ---- where the items go ----------------------------------------------------

  /** Doubling sends an item of bucket b to bucket b or to bucket b + n. */
  lemma BucketSplits(hashv: nat, k: nat)
    ensures var n := Pow2(k);
            ToBucket(hashv, 2 * n) == ToBucket(hashv, n) || ToBucket(hashv, 2 * n) == ToBucket(hashv, n) + n
  {
    AndMask(hashv, k);
    AndMask(hashv, k + 1);
    ModDouble(hashv, Pow2(k));
  }

  /** The old bucket that feeds the new bucket j. */
  function Feeder(j: nat, n: nat): nat {
    if j < n then j else j - n
  }

  lemma {:induction false} MovedToNothing(c: seq<Item>, j: nat, n: nat)
    requires n > 0 && forall i :: 0 <= i < |c| ==> ToBucket(c[i].hashv, n) != j
    ensures MovedTo(c, j, n) == []
  {
    if c == [] {
    } else {
      MovedToNothing(c[..|c| - 1], j, n);
    }
  }

  lemma {:induction false} OneFeeder(cs: seq<seq<Item>>, b: nat, S: set<Item>, j: nat, k: nat)
    requires Filed(cs, S) && |cs| == Pow2(k) && b <= |cs| && j < 2 * |cs|
    ensures var o := Feeder(j, |cs|);
            MovedFromAll(cs[..b], j, 2 * |cs|) == if o < b then MovedTo(cs[o], j, 2 * |cs|) else []
  {
    if b == 0 {
    } else {
      assert cs[..b][..b - 1] == cs[..b - 1];
      OneFeeder(cs, b - 1, S, j, k);
      var c := cs[b - 1];
      if Feeder(j, |cs|) != b - 1 {
        forall i | 0 <= i < |c|
          ensures ToBucket(c[i].hashv, 2 * |cs|) != j
        {
          assert ToBucket(c[i].hashv, |cs|) == b - 1;
          BucketSplits(c[i].hashv, k);
        }
        MovedToNothing(c, j, 2 * |cs|);
      }
    }
  }

  /** Each new chain is what its one feeder chain sent it, last met first. */
  lemma NewChains(ncs: seq<seq<Item>>, cs: seq<seq<Item>>, S: set<Item>, k: nat)
    requires Filed(cs, S) && |cs| == Pow2(k) && |ncs| == 2 * |cs| && MovedUpTo(ncs, cs, |cs|)
    ensures forall j :: 0 <= j < |ncs| ==> ncs[j] == MovedTo(cs[Feeder(j, |cs|)], j, |ncs|)
  {
    assert cs[..|cs|] == cs;
    forall j | 0 <= j < |ncs|
      ensures ncs[j] == MovedTo(cs[Feeder(j, |cs|)], j, |ncs|)
    {
      OneFeeder(cs, |cs|, S, j, k);
    }
  }

  lemma MovedToLast(c: seq<Item>, j: nat, n: nat)
    requires n > 0 && c != []
    ensures var x := c[|c| - 1];
            multiset(MovedTo(c, j, n)) ==
              multiset(MovedTo(c[..|c| - 1], j, n)) + if ToBucket(x.hashv, n) == j then multiset{x} else multiset{}
  {
    hide ToBucket;
  }

  /** An old chain is split between its two new buckets: nothing lost, nothing duplicated. */
  lemma {:induction false} ChainSplits(c: seq<Item>, b: nat, k: nat)
    requires forall i :: 0 <= i < |c| ==> ToBucket(c[i].hashv, Pow2(k)) == b
    ensures var n := Pow2(k);
            multiset(MovedTo(c, b, 2 * n)) + multiset(MovedTo(c, b + n, 2 * n)) == multiset(c)
  {
    hide ToBucket, Pow2, MovedTo;
    if c == [] {
      MovedToNothing(c, b, 2 * Pow2(k));
      MovedToNothing(c, b + Pow2(k), 2 * Pow2(k));
    } else {
      var x, n := c[|c| - 1], Pow2(k);
      assert c == c[..|c| - 1] + [x];
      BucketSplits(x.hashv, k);
      ChainSplits(c[..|c| - 1], b, k);
      MovedToLast(c, b, 2 * n);
      MovedToLast(c, b + n, 2 * n);
    }
  }

  // ---- the expansion as a whole ----------------------------------------------

  lemma FiledChains(bs: seq<Bucket>, cs: seq<seq<Item>>, S: set<Item>)
    requires Indexes(bs, cs, S)
    ensures |bs| == |cs| && Filed(cs, S)
  {
  }

  /** The shift-and-mask ideal chain length is the ceiling of items over buckets. */
  lemma IdealIsCeiling(n: nat, k: nat)
    ensures ShiftRight(n, k) + (if And(n, Pow2(k) - 1) != 0 then 1 else 0) == CeilDiv(n, Pow2(k))
    ensures CeilDiv(n, Pow2(k)) <= n
    ensures n > 0 ==> CeilDiv(n, Pow2(k)) > 0
  {
    AndMask(n, k);
    ShiftIsDivision(n, k);
    CeilDivByMod(n, Pow2(k));
    CeilDivRange(n, Pow2(k));
  }

  lemma CeilDivByMod(n: nat, b: nat)
    requires b > 0
    ensures CeilDiv(n, b) == n / b + if n % b != 0 then 1 else 0
  {
    var q, r := n / b, n % b;
    assert n == q * b + r;
    if r == 0 {
      DivModUnique(n + b - 1, b, q, b - 1);
    } else {
      assert (q + 1) * b == q * b + b;
      DivModUnique(n + b - 1, b, q + 1, r - 1);
    }
  }

  lemma CeilDivRange(n: nat, b: nat)
    requires b > 0
    ensures CeilDiv(n, b) <= n && (n > 0 ==> CeilDiv(n, b) > 0)
  {
    hide CeilDiv;
    CeilDivByMod(n, b);
    var q, r := n / b, n % b;
    assert n == q * b + r;
    if q > 0 {
      ProductAtLeast(b, q);
    }
  }

  lemma HalfIsShift(n: nat)
    ensures ShiftRight(n, 1) == n / 2
  {
    assert ShiftRight(n / 2, 0) == n / 2;
  }

  /** Twice the chains: each is made of the items of the old chain that feeds it, last met first. */
  ghost predicate Regrouped(cs: seq<seq<Item>>, ncs: seq<seq<Item>>)
    reads (set b, i | 0 <= b < |cs| && 0 <= i < |cs[b]| :: cs[b][i])`hashv
  {
    |ncs| == 2 * |cs| && forall j :: 0 <= j < |ncs| ==> ncs[j] == MovedTo(cs[Feeder(j, |cs|)], j, |ncs|)
  }

  /** Every old chain is split between two new ones: nothing lost, nothing duplicated. */
  ghost predicate Redistributed(cs: seq<seq<Item>>, ncs: seq<seq<Item>>) {
    |ncs| == 2 * |cs|
    && forall b :: 0 <= b < |cs| ==> multiset(ncs[b]) + multiset(ncs[b + |cs|]) == multiset(cs[b])
  }

  lemma AllSplit(cs: seq<seq<Item>>, ncs: seq<seq<Item>>, S: set<Item>, k: nat)
    requires Filed(cs, S) && |cs| == Pow2(k) && Regrouped(cs, ncs)
    ensures Redistributed(cs, ncs)
  {
    hide MovedTo, Pow2, ToBucket;
    forall b | 0 <= b < |cs|
      ensures multiset(ncs[b]) + multiset(ncs[b + |cs|]) == multiset(cs[b])
    {
      ChainSplits(cs[b], b, k);
    }
  }

  /** Up to this many items, in a table of at least 64 buckets, no multiplier's product can wrap. */
  const EXACT_ITEMS := 0xFC00_0000

  /** After an expansion a multiplier is exact if and only if its bucket's last product fits. */
  lemma AllMultipliersExact(bs: seq<Bucket>, cs: seq<seq<Item>>, S: set<Item>, nonideal: nat)
    requires Indexes(bs, cs, S) && 0 < |S| <= MAX_ITEMS
    requires Stats(bs, CeilDiv(|S|, |bs|), nonideal)
    ensures 0 < CeilDiv(|S|, |bs|)
    ensures var ideal := CeilDiv(|S|, |bs|);
            forall b :: 0 <= b < |bs| ==>
              && (bs[b].expandMult == MultFor(bs[b].count, ideal) <==> LastProductFits(bs[b].count, ideal))
              && (|bs| >= 64 && |S| <= EXACT_ITEMS ==> LastProductFits(bs[b].count, ideal))
  {
    hide CeilDiv, MultFor, LoopMult, Filed, Present, ChainOf, LastProductFits;
    var ideal := CeilDiv(|S|, |bs|);
    CeilDivRange(|S|, |bs|);
    forall b | 0 <= b < |bs|
      ensures bs[b].expandMult == MultFor(bs[b].count, ideal) <==> LastProductFits(bs[b].count, ideal)
      ensures |bs| >= 64 && |S| <= EXACT_ITEMS ==> LastProductFits(bs[b].count, ideal)
    {
      ChainsSmall(bs, cs, S, b);
      LoopMultExact(bs[b].count, ideal);
      if |bs| >= 64 && |S| <= EXACT_ITEMS {
        IdealIsSmall(|S|, |bs|);
        SmallProductFits(bs[b].count, ideal);
      }
    }
  }

  lemma SmallProductFits(count: nat, ideal: nat)
    requires ideal > 0 && count + ideal <= U32_SIZE
    ensures LastProductFits(count, ideal)
  {
    hide MultFor;
    if count > 0 {
      MultProduct(count - 1, ideal);
    }
  }

  lemma IdealIsSmall(n: nat, b: nat)
    requires b >= 64 && 0 < n <= EXACT_ITEMS
    ensures n + CeilDiv(n, b) <= U32_SIZE
  {
    CeilDivBounds(n, b);
    ProductMonotone(64, b, CeilDiv(n, b) - 1);
  }

  /** The doubled bucket array with every item moved, and the statistics over it. */
  method Doubled(bk: array<Bucket>, log2NumBuckets: nat, numItems: nat, ghost cs: seq<seq<Item>>, ghost S: set<Item>)
    returns (nb: array<Bucket>, ideal: nat, nonideal: nat, ghost ncs: seq<seq<Item>>)
    requires bk.Length == Pow2(log2NumBuckets) && Indexes(bk[..], cs, S) && 0 < numItems == |S|
    modifies S`hhNext, S`hhPrev
    ensures fresh(nb) && nb.Length == 2 * bk.Length && |cs| == bk.Length
    ensures Indexes(nb[..], ncs, S) && Regrouped(cs, ncs) && Redistributed(cs, ncs)
    ensures ideal == CeilDiv(numItems, nb.Length) && Stats(nb[..], ideal, nonideal)
  {
    hide Indexes, Stats, MovedUpTo, Filed, MovedTo, CeilDiv, Feeder;
    FiledChains(bk[..], cs, S);
    nb := new Bucket[bk.Length * 2](_ => EMPTY_BUCKET);
    ideal := ShiftRight(numItems, log2NumBuckets + 1) + if And(numItems, bk.Length * 2 - 1) != 0 then 1 else 0;
    IdealIsCeiling(numItems, log2NumBuckets + 1);
    nonideal, ncs := Redistribute(bk, nb, ideal, cs, S);
    NewChains(ncs, cs, S, log2NumBuckets);
    AllSplit(cs, ncs, S, log2NumBuckets);
  }
}
