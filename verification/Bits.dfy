/** Unsigned machine words: bitwise operators on naturals and their arithmetic meaning. */
module Bits {

  const U32_SIZE := 0x1_0000_0000
  const U64_SIZE := 0x1_0000_0000_0000_0000

  function Min(a: nat, b: nat): nat {
    if a <= b then a else b
  }

  /** An unsigned 32-bit result. */
  function U32(x: nat): (r: nat)
    ensures r < U32_SIZE && (x < U32_SIZE ==> r == x)
  {
    if x < U32_SIZE then x else x % 0x1_0000_0000
  }

  lemma WordWraps(x: nat)
    ensures U32(x + U32_SIZE) == U32(x)
  {
  }

  function Pow2(k: nat): (p: nat)
    ensures p > 0
  {
    if k == 0 then 1 else 2 * Pow2(k - 1)
  }

  /** x & y, one bit at a time. */
  function And(x: nat, y: nat): (r: nat)
    ensures r <= y
  {
    if x == 0 || y == 0 then 0
    else 2 * And(x / 2, y / 2) + (if x % 2 == 1 && y % 2 == 1 then 1 else 0)
  }

  /** x >> k, one bit at a time. */
  function ShiftRight(x: nat, k: nat): nat
    decreases k
  {
    if k == 0 then x else ShiftRight(x / 2, k - 1)
  }

  lemma {:induction false} Pow2Monotone(a: nat, b: nat)
    requires a <= b
    ensures Pow2(a) <= Pow2(b)
  {
    if a >= b {
    } else {
      Pow2Monotone(a, b - 1);
    }
  }

  lemma ModTwice(x: nat, p: nat)
    requires p > 0
    ensures x % (2 * p) == 2 * ((x / 2) % p) + x % 2
    ensures x / (2 * p) == (x / 2) / p
  {
    var h := x / 2;
    assert x == 2 * h + x % 2;
    var q, r := h / p, h % p;
    assert h == q * p + r;
    assert x == q * (2 * p) + (2 * r + x % 2);
    DivModUnique(x, 2 * p, q, 2 * r + x % 2);
  }

  lemma ProductAtLeast(a: int, d: int)
    requires a >= 1 && d >= 0
    ensures a * d >= d
  {
    assert (a - 1) * d >= 0;
  }

  lemma DivModUnique(x: nat, d: nat, q: nat, r: nat)
    requires d > 0 && r < d && x == q * d + r
    ensures x / d == q && x % d == r
  {
    var e, t := x / d - q, x % d;
    assert x == (x / d) * d + t;
    assert e * d == (x / d) * d - q * d && (-e) * d == -(e * d);
    if e > 0 {
      ProductAtLeast(e, d);
    } else if e < 0 {
      ProductAtLeast(-e, d);
    }
  }

  /** Masking with a power of two less one is the remainder. */
  lemma {:induction false} AndMask(x: nat, k: nat)
    ensures And(x, Pow2(k) - 1) == x % Pow2(k)
  {
    if k == 0 {
    } else {
      AndMask(x / 2, k - 1);
      ModTwice(x, Pow2(k - 1));
      assert (Pow2(k) - 1) / 2 == Pow2(k - 1) - 1;
      assert (Pow2(k) - 1) % 2 == 1;
    }
  }

  lemma {:induction false} ShiftIsDivision(x: nat, k: nat)
    ensures ShiftRight(x, k) == x / Pow2(k)
  {
    if k == 0 {
    } else {
      ShiftIsDivision(x / 2, k - 1);
      ModTwice(x, Pow2(k - 1));
    }
  }

  lemma TwiceProduct(g: int, p: int)
    ensures (2 * g) * p == g * (2 * p) && (2 * g + 1) * p == g * (2 * p) + p
  {
  }

  /** Doubling the modulus keeps a remainder or adds the old modulus to it. */
  lemma ModDouble(x: nat, p: nat)
    requires p > 0
    ensures x % (2 * p) == x % p || x % (2 * p) == x % p + p
  {
    var h, r := x / p, x % p;
    var g := h / 2;
    assert x == h * p + r;
    TwiceProduct(g, p);
    if h % 2 == 0 {
      assert h == 2 * g;
      DivModUnique(x, 2 * p, g, r);
    } else {
      assert h == 2 * g + 1;
      DivModUnique(x, 2 * p, g, r + p);
    }
  }
}
