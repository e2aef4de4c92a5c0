/**
  The order a stable sort must produce, stated by insertion, and the laws a
  bottom-up merge sort needs to reach that order.
  Nothing here depends on how a list is represented.
 */
module StableSort {
  import opened Bits

  /** A strcmp-like comparison: negative, zero or positive. */
  predicate Le<T>(cmp: (T, T) -> int, a: T, b: T) {
    cmp(a, b) <= 0
  }

  /** The comparison is total and transitive on the elements of S. */
  ghost predicate TotalPreorder<T>(cmp: (T, T) -> int, S: set<T>) {
    && (forall a, b :: a in S && b in S ==> Le(cmp, a, b) || Le(cmp, b, a))
    && (forall a, b, c :: a in S && b in S && c in S && Le(cmp, a, b) && Le(cmp, b, c) ==> Le(cmp, a, c))
  }

  ghost predicate Within<T>(s: seq<T>, S: set<T>) {
    forall i :: 0 <= i < |s| ==> s[i] in S
  }

  ghost predicate Sorted<T>(cmp: (T, T) -> int, s: seq<T>) {
    forall i, j :: 0 <= i < j < |s| ==> Le(cmp, s[i], s[j])
  }

  /** x goes before the first element that is strictly greater. */
  ghost function Insert<T>(cmp: (T, T) -> int, s: seq<T>, x: T): seq<T> {
    if s == [] then [x]
    else if Le(cmp, s[0], x) then [s[0]] + Insert(cmp, s[1..], x)
    else [x] + s
  }

  ghost function Sort<T>(cmp: (T, T) -> int, s: seq<T>): seq<T> {
    if s == [] then [] else Insert(cmp, Sort(cmp, s[..|s| - 1]), s[|s| - 1])
  }

  /** On a tie the element of a comes first. */
  ghost function Merge<T>(cmp: (T, T) -> int, a: seq<T>, b: seq<T>): seq<T> {
    if a == [] then b
    else if b == [] then a
    else if Le(cmp, a[0], b[0]) then [a[0]] + Merge(cmp, a[1..], b)
    else [b[0]] + Merge(cmp, a, b[1..])
  }

  /** s[a..] cut into runs of k elements, each run sorted on its own. */
  ghost function RunsFrom<T>(cmp: (T, T) -> int, s: seq<T>, a: nat, k: nat): seq<T>
    requires k > 0 && a <= |s|
    decreases |s| - a
  {
    if a == |s| then []
    else
      var m := Min(a + k, |s|);
      Sort(cmp, s[a..m]) + RunsFrom(cmp, s, m, k)
  }

  ghost function SortedRuns<T>(cmp: (T, T) -> int, s: seq<T>, k: nat): seq<T>
    requires k > 0
  {
    RunsFrom(cmp, s, 0, k)
  }

  /** What merging s[i..m] and s[j..b] has to emit. */
  ghost function ToMerge<T>(cmp: (T, T) -> int, s: seq<T>, i: nat, m: nat, j: nat, b: nat): seq<T>
    requires i <= m <= j <= b <= |s|
  {
    Merge(cmp, s[i..m], s[j..b])
  }

  /** One pass of the bottom-up sort from s[a] on: neighbouring runs of k elements are merged. */
  ghost function PassFrom<T>(cmp: (T, T) -> int, s: seq<T>, a: nat, k: nat): seq<T>
    requires k > 0 && a <= |s|
    decreases |s| - a
  {
    if a == |s| then []
    else
      var m := Min(a + k, |s|);
      var b := Min(m + k, |s|);
      ToMerge(cmp, s, a, m, m, b) + PassFrom(cmp, s, b, k)
  }

  ghost function MergePass<T>(cmp: (T, T) -> int, s: seq<T>, k: nat): seq<T>
    requires k > 0
  {
    PassFrom(cmp, s, 0, k)
  }

  lemma AppendAssociative<T>(x: seq<T>, y: seq<T>, z: seq<T>)
    ensures (x + y) + z == x + (y + z)
  {
  }

  // ---- Sort is a stable sort -------------------------------------------------

  lemma {:induction false} InsertContents<T>(cmp: (T, T) -> int, s: seq<T>, x: T)
    ensures multiset(Insert(cmp, s, x)) == multiset(s) + multiset{x}
  {
    if s == [] {
    } else {
      assert s == [s[0]] + s[1..];
      if Le(cmp, s[0], x) {
        InsertContents(cmp, s[1..], x);
      }
    }
  }

  lemma {:induction false} SortContents<T>(cmp: (T, T) -> int, s: seq<T>)
    ensures multiset(Sort(cmp, s)) == multiset(s)
  {
    if s == [] {
    } else {
      SortContents(cmp, s[..|s| - 1]);
      InsertContents(cmp, Sort(cmp, s[..|s| - 1]), s[|s| - 1]);
      assert s == s[..|s| - 1] + [s[|s| - 1]];
    }
  }

  lemma {:induction false} InsertWithin<T>(cmp: (T, T) -> int, s: seq<T>, x: T, S: set<T>)
    requires Within(s, S) && x in S
    ensures Within(Insert(cmp, s, x), S) && |Insert(cmp, s, x)| == |s| + 1
  {
    if s == [] {
    } else {
      InsertWithin(cmp, s[1..], x, S);
    }
  }

  lemma {:induction false} SortWithin<T>(cmp: (T, T) -> int, s: seq<T>, S: set<T>)
    requires Within(s, S)
    ensures Within(Sort(cmp, s), S) && |Sort(cmp, s)| == |s|
  {
    if s == [] {
    } else {
      SortWithin(cmp, s[..|s| - 1], S);
      InsertWithin(cmp, Sort(cmp, s[..|s| - 1]), s[|s| - 1], S);
    }
  }

  lemma SortLength<T>(cmp: (T, T) -> int, s: seq<T>)
    ensures |Sort(cmp, s)| == |s|
  {
    SortWithin(cmp, s, set x | x in s);
  }

  lemma {:induction false} InsertSorted<T>(cmp: (T, T) -> int, s: seq<T>, x: T, S: set<T>)
    requires TotalPreorder(cmp, S) && Within(s, S) && x in S
    requires Sorted(cmp, s)
    ensures Sorted(cmp, Insert(cmp, s, x))
  {
    if s != [] && Le(cmp, s[0], x) {
      InsertSorted(cmp, s[1..], x, S);
      InsertWithin(cmp, s[1..], x, set y | y in S && Le(cmp, s[0], y));
    }
  }

  lemma {:induction false} SortSorted<T>(cmp: (T, T) -> int, s: seq<T>, S: set<T>)
    requires TotalPreorder(cmp, S) && Within(s, S)
    ensures Sorted(cmp, Sort(cmp, s))
  {
    if s == [] {
    } else {
      var front := s[..|s| - 1];
      SortSorted(cmp, front, S);
      SortWithin(cmp, front, S);
      InsertSorted(cmp, Sort(cmp, front), s[|s| - 1], S);
    }
  }

  predicate Equivalent<T>(cmp: (T, T) -> int, a: T, b: T) {
    Le(cmp, a, b) && Le(cmp, b, a)
  }

  /** The elements of s that compare equal to e, in the order s lists them. */
  ghost function Equals<T>(cmp: (T, T) -> int, s: seq<T>, e: T): seq<T> {
    if s == [] then []
    else (if Equivalent(cmp, s[0], e) then [s[0]] else []) + Equals(cmp, s[1..], e)
  }

  lemma {:induction false} EqualsAppend<T>(cmp: (T, T) -> int, a: seq<T>, b: seq<T>, e: T)
    ensures Equals(cmp, a + b, e) == Equals(cmp, a, e) + Equals(cmp, b, e)
  {
    if a == [] {
      assert a + b == b;
    } else {
      assert (a + b)[1..] == a[1..] + b;
      EqualsAppend(cmp, a[1..], b, e);
      AppendAssociative(if Equivalent(cmp, a[0], e) then [a[0]] else [], Equals(cmp, a[1..], e), Equals(cmp, b, e));
    }
  }

  lemma {:induction false} NoEquals<T>(cmp: (T, T) -> int, s: seq<T>, e: T)
    requires forall i :: 0 <= i < |s| ==> !Equivalent(cmp, s[i], e)
    ensures Equals(cmp, s, e) == []
  {
    if s == [] {
    } else {
      NoEquals(cmp, s[1..], e);
    }
  }

  lemma {:induction false} InsertStable<T>(cmp: (T, T) -> int, s: seq<T>, x: T, e: T, S: set<T>)
    requires TotalPreorder(cmp, S) && Within(s, S) && x in S && e in S
    requires Sorted(cmp, s)
    ensures Equals(cmp, Insert(cmp, s, x), e) == Equals(cmp, s, e) + Equals(cmp, [x], e)
  {
    if s == [] {
    } else {
      if Le(cmp, s[0], x) {
        InsertStable(cmp, s[1..], x, e, S);
        assert ([s[0]] + Insert(cmp, s[1..], x))[1..] == Insert(cmp, s[1..], x);
        AppendAssociative(if Equivalent(cmp, s[0], e) then [s[0]] else [], Equals(cmp, s[1..], e), Equals(cmp, [x], e));
      } else {
        assert ([x] + s)[1..] == s && [x][1..] == [];
        assert Equals(cmp, [x], e) == if Equivalent(cmp, x, e) then [x] else [];
        if Equivalent(cmp, x, e) {
          forall i | 0 <= i < |s|
            ensures !Equivalent(cmp, s[i], e)
          {
            assert i > 0 ==> Le(cmp, s[0], s[i]);
          }
          NoEquals(cmp, s, e);
        }
      }
    }
  }

  /** Elements that compare equal keep their relative order. */
  lemma {:induction false} SortStable<T>(cmp: (T, T) -> int, s: seq<T>, e: T, S: set<T>)
    requires TotalPreorder(cmp, S) && Within(s, S) && e in S
    ensures Equals(cmp, Sort(cmp, s), e) == Equals(cmp, s, e)
  {
    if s == [] {
    } else {
      var front, x := s[..|s| - 1], s[|s| - 1];
      assert front + [x] == s;
      SortStable(cmp, front, e, S);
      SortSorted(cmp, front, S);
      SortWithin(cmp, front, S);
      InsertStable(cmp, Sort(cmp, front), x, e, S);
      EqualsAppend(cmp, front, [x], e);
    }
  }

  lemma {:induction false} InsertLast<T>(cmp: (T, T) -> int, s: seq<T>, x: T)
    requires forall i :: 0 <= i < |s| ==> Le(cmp, s[i], x)
    ensures Insert(cmp, s, x) == s + [x]
  {
    if s == [] {
    } else {
      InsertLast(cmp, s[1..], x);
      assert s + [x] == [s[0]] + (s[1..] + [x]);
    }
  }

  lemma {:induction false} SortOfSorted<T>(cmp: (T, T) -> int, s: seq<T>)
    requires Sorted(cmp, s)
    ensures Sort(cmp, s) == s
  {
    if s == [] {
    } else {
      SortOfSorted(cmp, s[..|s| - 1]);
      InsertLast(cmp, s[..|s| - 1], s[|s| - 1]);
    }
  }

  lemma {:induction false} InsertPosition<T>(cmp: (T, T) -> int, s: seq<T>, x: T, i: nat)
    requires i <= |s| && (forall j :: 0 <= j < i ==> Le(cmp, s[j], x)) && (i < |s| ==> !Le(cmp, s[i], x))
    ensures Insert(cmp, s, x) == s[..i] + [x] + s[i..]
  {
    if i > 0 {
      InsertPosition(cmp, s[1..], x, i - 1);
      assert s[..i] == [s[0]] + s[1..][..i - 1] && s[1..][i - 1..] == s[i..];
    } else {
      assert s[..0] + [x] + s[0..] == [x] + s;
    }
  }

  /** Inserting into a sorted list is appending and then sorting stably. */
  lemma InsertIsAppendThenSort<T>(cmp: (T, T) -> int, s: seq<T>, x: T)
    requires Sorted(cmp, s)
    ensures Insert(cmp, s, x) == Sort(cmp, s + [x])
  {
    assert (s + [x])[..|s|] == s;
    SortOfSorted(cmp, s);
  }

  // ---- merging runs ----------------------------------------------------------

  lemma {:induction false} MergeInsert<T>(cmp: (T, T) -> int, a: seq<T>, b: seq<T>, x: T, S: set<T>)
    requires TotalPreorder(cmp, S) && Within(a, S) && Within(b, S) && x in S
    ensures Merge(cmp, a, Insert(cmp, b, x)) == Insert(cmp, Merge(cmp, a, b), x)
    decreases |a| + |b|
  {
    if a == [] {
    } else {
      MergeInsert(cmp, a[1..], b, x, S);
      if b != [] {
        MergeInsert(cmp, a, b[1..], x, S);
        assert ([x] + b)[1..] == b && ([b[0]] + Insert(cmp, b[1..], x))[1..] == Insert(cmp, b[1..], x);
      } else {
        assert [x][1..] == [];
      }
    }
  }

  lemma {:induction false} MergeSorts<T>(cmp: (T, T) -> int, a: seq<T>, b: seq<T>, S: set<T>)
    requires TotalPreorder(cmp, S) && Within(a, S) && Within(b, S)
    ensures Merge(cmp, Sort(cmp, a), Sort(cmp, b)) == Sort(cmp, a + b)
  {
    if b == [] {
      assert a + b == a;
    } else {
      var front, x := b[..|b| - 1], b[|b| - 1];
      assert (a + b)[..|a + b| - 1] == a + front;
      MergeSorts(cmp, a, front, S);
      SortWithin(cmp, a, S);
      SortWithin(cmp, front, S);
      MergeInsert(cmp, Sort(cmp, a), Sort(cmp, front), x, S);
    }
  }

  lemma PassBlock<T>(cmp: (T, T) -> int, pre: seq<T>, x: seq<T>, y: seq<T>, rest: seq<T>, k: nat)
    requires 0 < |x| <= k && |y| <= k && (|x| < k ==> y == []) && (|y| < k ==> rest == [])
    ensures var r := pre + (x + (y + rest));
            PassFrom(cmp, r, |pre|, k) == Merge(cmp, x, y) + PassFrom(cmp, (pre + x + y) + rest, |pre + x + y|, k)
  {
    var r := pre + (x + (y + rest));
    var a, m, b := |pre|, |pre| + |x|, |pre| + |x| + |y|;
    assert r == (pre + x + y) + rest;
    assert r[a..m] == x && r[m..b] == y;
    assert m == Min(a + k, |r|) && b == Min(m + k, |r|);
  }

  lemma MergeNeighbours<T>(cmp: (T, T) -> int, s: seq<T>, a: nat, m: nat, b: nat, S: set<T>)
    requires a <= m <= b <= |s| && TotalPreorder(cmp, S) && Within(s, S)
    ensures Merge(cmp, Sort(cmp, s[a..m]), Sort(cmp, s[m..b])) == Sort(cmp, s[a..b])
  {
    assert s[a..m] + s[m..b] == s[a..b];
    MergeSorts(cmp, s[a..m], s[m..b], S);
  }

  lemma TwoRuns<T>(cmp: (T, T) -> int, s: seq<T>, a: nat, k: nat)
    requires k > 0 && a < |s|
    ensures var m := Min(a + k, |s|);
            var b := Min(m + k, |s|);
            RunsFrom(cmp, s, a, k) == Sort(cmp, s[a..m]) + (Sort(cmp, s[m..b]) + RunsFrom(cmp, s, b, k))
  {
    var m := Min(a + k, |s|);
    if m == |s| {
      assert s[m..m] == [];
    }
  }

  /** The first two runs from s[a] on, merged by the pass. */
  lemma PassOnRuns<T>(cmp: (T, T) -> int, s: seq<T>, pre: seq<T>, a: nat, k: nat, S: set<T>)
    returns (pre': seq<T>, b: nat)
    requires k > 0 && |pre| == a < |s| && TotalPreorder(cmp, S) && Within(s, S)
    ensures b == Min(a + 2 * k, |s|) == |pre'|
    ensures PassFrom(cmp, pre + RunsFrom(cmp, s, a, k), a, k) ==
            Sort(cmp, s[a..b]) + PassFrom(cmp, pre' + RunsFrom(cmp, s, b, k), b, k)
  {
    hide Sort, Merge;
    var m := Min(a + k, |s|);
    b := Min(m + k, |s|);
    var x, y := Sort(cmp, s[a..m]), Sort(cmp, s[m..b]);
    pre' := pre + x + y;
    SortLength(cmp, s[a..m]);
    SortLength(cmp, s[m..b]);
    TwoRuns(cmp, s, a, k);
    PassBlock(cmp, pre, x, y, RunsFrom(cmp, s, b, k), k);
    MergeNeighbours(cmp, s, a, m, b, S);
  }

  lemma {:induction false} PassDoublesFrom<T>(cmp: (T, T) -> int, s: seq<T>, pre: seq<T>, a: nat, k: nat, S: set<T>)
    requires k > 0 && |pre| == a <= |s| && TotalPreorder(cmp, S) && Within(s, S)
    ensures PassFrom(cmp, pre + RunsFrom(cmp, s, a, k), a, k) == RunsFrom(cmp, s, a, 2 * k)
    decreases |s| - a
  {
    RunsWithin(cmp, s, a, k, S);
    if a >= |s| {
    } else {
      var pre', b := PassOnRuns(cmp, s, pre, a, k, S);
      RunsWithin(cmp, s, b, k, S);
      PassDoublesFrom(cmp, s, pre', b, k, S);
    }
  }

  /** A pass over sorted runs of length k leaves sorted runs of length 2k. */
  lemma PassDoublesRuns<T>(cmp: (T, T) -> int, s: seq<T>, k: nat, S: set<T>)
    requires k > 0 && TotalPreorder(cmp, S) && Within(s, S)
    ensures MergePass(cmp, SortedRuns(cmp, s, k), k) == SortedRuns(cmp, s, 2 * k)
  {
    PassDoublesFrom(cmp, s, [], 0, k, S);
    assert [] + SortedRuns(cmp, s, k) == SortedRuns(cmp, s, k);
  }

  lemma {:induction false} RunsWithin<T>(cmp: (T, T) -> int, s: seq<T>, a: nat, k: nat, S: set<T>)
    requires k > 0 && a <= |s| && Within(s, S)
    ensures Within(RunsFrom(cmp, s, a, k), S) && |RunsFrom(cmp, s, a, k)| == |s| - a
    decreases |s| - a
  {
    if a >= |s| {
    } else {
      var m := Min(a + k, |s|);
      SortWithin(cmp, s[a..m], S);
      RunsWithin(cmp, s, m, k, S);
    }
  }

  lemma {:induction false} RunsOfOne<T>(cmp: (T, T) -> int, s: seq<T>, a: nat)
    requires a <= |s|
    ensures RunsFrom(cmp, s, a, 1) == s[a..]
    decreases |s| - a
  {
    if a >= |s| {
    } else {
      assert s[a..a + 1] == [s[a]] && [s[a]][..0] == [];
      assert Sort(cmp, [s[a]]) == [s[a]];
      RunsOfOne(cmp, s, a + 1);
    }
  }

  lemma OneRun<T>(cmp: (T, T) -> int, s: seq<T>, k: nat)
    requires k > 0 && |s| <= k
    ensures SortedRuns(cmp, s, k) == Sort(cmp, s)
  {
    if s != [] {
      assert s[0..|s|] == s;
      assert RunsFrom(cmp, s, |s|, k) == [];
    }
  }
}
