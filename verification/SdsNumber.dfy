/** Integers printed into a caller's buffer: digits last first, then reversed in place. */
module SdsNumber {
  import opened Bits

  /** Room for the longest 64-bit number and its terminator. */
  const LLSTR_SIZE := 21

  const I64_MIN := -0x8000_0000_0000_0000
  const I64_MAX := 0x7FFF_FFFF_FFFF_FFFF

  function Digit(d: nat): char
    requires d < 10
  {
    ('0' as int + d) as char
  }

  function Decimal(v: nat): string {
    if v < 10 then [Digit(v)] else Decimal(v / 10) + [Digit(v % 10)]
  }

  function SignedDecimal(v: int): string {
    if v < 0 then "-" + Decimal(-v) else Decimal(v)
  }

  /** The number a decimal string spells. */
  function ReadDecimal(s: string): int {
    if s == "" then 0 else 10 * ReadDecimal(s[..|s| - 1]) + (s[|s| - 1] as int - '0' as int)
  }

  function ReadSigned(s: string): int {
    if |s| > 0 && s[0] == '-' then -ReadDecimal(s[1..]) else ReadDecimal(s)
  }

  lemma {:induction false} DecimalReadsBack(v: nat)
    ensures ReadDecimal(Decimal(v)) == v
    ensures |Decimal(v)| > 0 && Decimal(v)[0] != '-'
  {
    if v < 10 {
      assert ReadDecimal([Digit(v)]) == 10 * ReadDecimal("") + v by {
        assert [Digit(v)][..0] == "";
      }
    } else {
      DecimalReadsBack(v / 10);
      assert Decimal(v)[..|Decimal(v)| - 1] == Decimal(v / 10);
    }
  }

  /** Digits only, and no zero in front of a number that has more than one. */
  lemma {:induction false} DecimalDigits(v: nat)
    ensures |Decimal(v)| > 0 && forall i :: 0 <= i < |Decimal(v)| ==> '0' <= Decimal(v)[i] <= '9'
    ensures Decimal(v)[0] == '0' <==> v == 0
  {
    if v < 10 {
    } else {
      DecimalDigits(v / 10);
    }
  }

  /** Every printed number reads back to itself, whatever its sign. */
  lemma SignedReadsBack(v: int)
    ensures ReadSigned(SignedDecimal(v)) == v
  {
    if v < 0 {
      DecimalReadsBack(-v);
      assert ("-" + Decimal(-v))[1..] == Decimal(-v);
    } else {
      DecimalReadsBack(v);
    }
  }

  function Pow10(k: nat): nat {
    if k == 0 then 1 else 10 * Pow10(k - 1)
  }

  lemma {:induction false} DecimalLength(v: nat, k: nat)
    requires k > 0 && v < Pow10(k)
    ensures |Decimal(v)| <= k
  {
    if v < 10 {
    } else {
      assert k > 1;
      DecimalLength(v / 10, k - 1);
    }
  }

  /** Twenty bytes hold every 64-bit number, the sign included. */
  lemma NumbersFit(v: int)
    requires I64_MIN <= v < U64_SIZE
    ensures |SignedDecimal(v)| < LLSTR_SIZE
  {
    assert Pow10(5) == 10_0000 && Pow10(10) == 10_0000 * Pow10(5);
    assert Pow10(15) == 10_0000 * Pow10(10) && Pow10(19) == 1_0000 * Pow10(15) && Pow10(20) == 10 * Pow10(19);
    if v < 0 {
      DecimalLength(-v, 19);
    } else {
      DecimalLength(v, 20);
    }
  }

  function Reverse(s: string): (r: string)
    ensures |r| == |s|
  {
    if s == "" then "" else [s[|s| - 1]] + Reverse(s[..|s| - 1])
  }

  lemma {:induction false} ReverseAt(s: string, k: nat)
    requires k < |s|
    ensures Reverse(s)[k] == s[|s| - 1 - k]
  {
    if k == 0 {
    } else {
      ReverseAt(s[..|s| - 1], k - 1);
    }
  }

  /** Swaps from both ends towards the middle of a[..l]. */
  method ReverseInPlace(a: array<char>, l: nat)
    requires 0 < l <= a.Length
    modifies a
    ensures a[..l] == Reverse(old(a[..l])) && a[l..] == old(a[l..])
  {
    var s, p := 0, l - 1;
    while s < p
      invariant 0 <= s <= p + 1 && s + p == l - 1
      invariant forall k :: 0 <= k < s || p < k < l ==> a[k] == old(a[l - 1 - k])
      invariant forall k :: s <= k <= p || l <= k < a.Length ==> a[k] == old(a[k])
    {
      a[s], a[p] := a[p], a[s];
      s, p := s + 1, p - 1;
    }
    ghost var was := old(a[..l]);
    forall k | 0 <= k < l
      ensures a[..l][k] == Reverse(was)[k]
    {
      ReverseAt(was, k);
    }
  }

  lemma Shift(v: nat, done: string)
    ensures Decimal(v) + done == if v < 10 then [Digit(v)] + done else Decimal(v / 10) + ([Digit(v % 10)] + done)
  {
  }

  /** The digit loop: the digits of v0 from the last to the first. */
  method PutDigits(a: array<char>, v0: nat) returns (p: nat)
    requires |Decimal(v0)| <= a.Length
    modifies a
    ensures 0 < p <= a.Length && Reverse(a[..p]) == Decimal(v0)
  {
    var v: nat := v0 / 10;
    a[0] := Digit(v0 % 10);
    p := 1;
    assert a[..1] == [Digit(v0 % 10)] && a[..1][..0] == "";
    assert Reverse(a[..1]) == [Digit(v0 % 10)];
    while v != 0
      invariant 0 < p <= a.Length
      invariant Decimal(v0) == if v == 0 then Reverse(a[..p]) else Decimal(v) + Reverse(a[..p])
    {
      ghost var done := a[..p];
      a[p] := Digit(v % 10);
      assert a[..p + 1][..p] == done;
      Shift(v, Reverse(done));
      v, p := v / 10, p + 1;
    }
  }

  /**
    sdsll2str. A negative value is negated as a signed number, which overflows at the least one;
    the model takes the wrapped result there, whose unsigned value is the magnitude.
   */
  method Ll2Str(a: array<char>, value: int) returns (l: nat)
    requires a.Length >= LLSTR_SIZE && I64_MIN <= value <= I64_MAX
    modifies a
    ensures l < LLSTR_SIZE && a[..l] == SignedDecimal(value) && a[l] == '\0'
  {
    NumbersFit(value);
    var v: nat := if value < 0 then (-value) % 0x1_0000_0000_0000_0000 else value;
    l := PutDigits(a, v);
    if value < 0 {
      ghost var digits := a[..l];
      a[l] := '-';
      assert a[..l + 1][..l] == digits;
      l := l + 1;
    }
    a[l] := '\0';
    ReverseInPlace(a, l);
    assert a[l] == a[l..][0];
  }

  /** sdsull2str. */
  method Ull2Str(a: array<char>, v: nat) returns (l: nat)
    requires a.Length >= LLSTR_SIZE && v < U64_SIZE
    modifies a
    ensures l < LLSTR_SIZE && a[..l] == SignedDecimal(v) && a[l] == '\0'
  {
    NumbersFit(v);
    l := PutDigits(a, v);
    a[l] := '\0';
    ReverseInPlace(a, l);
    assert a[l] == a[l..][0];
  }
}
