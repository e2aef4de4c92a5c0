/** The cost of growing a string by appending. */
module SdsGrowth {
  import opened SdsBuffer

  /** A string's length and capacity, and the content bytes its reallocations have copied. */
  datatype Growth = Growth(len: nat, alloc: nat, moved: nat)

  function Append(g: Growth, n: nat): Growth {
    if g.len + n <= g.alloc then g.(len := g.len + n)
    else Growth(g.len + n, Preallocated(g.len + n), g.moved + g.len)
  }

  /** Appending pieces of the given lengths. */
  function AppendFrom(g: Growth, pieces: seq<nat>): Growth {
    if pieces == [] then g else Append(AppendFrom(g, pieces[..|pieces| - 1]), pieces[|pieces| - 1])
  }

  /** The same from the empty string. */
  function AppendAll(pieces: seq<nat>): Growth {
    AppendFrom(Growth(0, 0, 0), pieces)
  }

  function Sum(ns: seq<nat>): nat {
    if ns == [] then 0 else Sum(ns[..|ns| - 1]) + ns[|ns| - 1]
  }

  /** While the length stays below the preallocation limit, each byte is copied at most twice over all. */
  lemma {:induction false} AmortisedGrowth(pieces: seq<nat>)
    requires Sum(pieces) < MAX_PREALLOC
    ensures var g := AppendAll(pieces);
            g.len == Sum(pieces) && g.len <= g.alloc && g.moved <= 2 * g.len && g.moved <= g.alloc
  {
    if pieces == [] {
    } else {
      AmortisedGrowth(pieces[..|pieces| - 1]);
    }
  }

  /** How many of these appends to g reallocate. */
  function Reallocations(g: Growth, pieces: seq<nat>): nat {
    if pieces == [] then 0
    else
      var front := pieces[..|pieces| - 1];
      var h := AppendFrom(g, front);
      Reallocations(g, front) + if h.len + pieces[|pieces| - 1] <= h.alloc then 0 else 1
  }

  /**
    From the preallocation limit up, k reallocations take more than k - 1 times that many
    appended bytes, and no more than that many bytes are ever to spare.
   */
  lemma {:induction false} SteadyGrowth(g: Growth, pieces: seq<nat>)
    requires MAX_PREALLOC <= g.len <= g.alloc <= g.len + MAX_PREALLOC
    ensures var h, k := AppendFrom(g, pieces), Reallocations(g, pieces);
            && h.len == g.len + Sum(pieces) && h.len <= h.alloc <= h.len + MAX_PREALLOC
            && k * MAX_PREALLOC + (g.alloc - g.len) <= Sum(pieces) + (h.alloc - h.len)
            && (k > 0 ==> (k - 1) * MAX_PREALLOC < Sum(pieces))
  {
    if pieces == [] {
    } else {
      SteadyGrowth(g, pieces[..|pieces| - 1]);
    }
  }

  function Concat(ts: seq<string>): string {
    if ts == [] then "" else Concat(ts[..|ts| - 1]) + ts[|ts| - 1]
  }

  function Lengths(ts: seq<string>): seq<nat> {
    seq(|ts|, i requires 0 <= i < |ts| => |ts[i]|)
  }

  lemma {:induction false} ConcatLength(ts: seq<string>)
    ensures |Concat(ts)| == Sum(Lengths(ts))
  {
    if ts == [] {
    } else {
      ConcatLength(ts[..|ts| - 1]);
      assert Lengths(ts)[..|ts| - 1] == Lengths(ts[..|ts| - 1]);
    }
  }

  lemma {:induction false} ConcatPrefix(ts: seq<string>, i: nat)
    requires i <= |ts|
    ensures |Concat(ts[..i])| <= |Concat(ts)|
    decreases |ts|
  {
    if i < |ts| {
      ConcatPrefix(ts[..|ts| - 1], i);
      assert ts[..|ts| - 1][..i] == ts[..i];
    } else {
      assert ts[..i] == ts;
    }
  }

  /** A run of sdscatlen from sdsempty. */
  method CatAll(ts: seq<string>) returns (s: Sds)
    requires |Concat(ts)| < MAX_PREALLOC
    ensures fresh(s) && s.Valid() && s.Content() == Concat(ts)
    ensures s.moved <= 2 * |Concat(ts)|
  {
    s := new Sds("");
    for i := 0 to |ts|
      invariant fresh(s) && fresh(s.buf) && s.Valid() && s.typ != Type5
      invariant s.Content() == Concat(ts[..i])
      invariant Growth(s.len, s.Alloc(), s.moved) == AppendAll(Lengths(ts[..i]))
    {
      assert ts[..i + 1][..i] == ts[..i];
      assert Lengths(ts[..i + 1])[..i] == Lengths(ts[..i]);
      ConcatPrefix(ts, i + 1);
      s.CatLen(ts[i]);
    }
    assert ts[..|ts|] == ts;
    ConcatLength(ts);
    AmortisedGrowth(Lengths(ts));
  }
}
