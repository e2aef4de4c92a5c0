/** Dynamic strings: a header of one of five widths, a length, a capacity and a byte buffer. */
module SdsBuffer {
  import opened Bits

  datatype HdrType = Type5 | Type8 | Type16 | Type32 | Type64

  const MAX_PREALLOC := 1024 * 1024

  /** The largest value a length or capacity field of the header can hold. */
  function MaxField(t: HdrType): (n: nat)
    ensures 31 <= n < U64_SIZE
  {
    match t
    case Type5 => 31
    case Type8 => 0xFF
    case Type16 => 0xFFFF
    case Type32 => 0xFFFF_FFFF
    case Type64 => 0xFFFF_FFFF_FFFF_FFFF
  }

  /** What a header field keeps of n: its low bits. */
  function Field(t: HdrType, n: nat): (f: nat)
    ensures f <= MaxField(t) && (n <= MaxField(t) ==> f == n)
  {
    if n <= MaxField(t) then n else n % (MaxField(t) + 1)
  }

  /** sdsReqType. */
  function ReqType(size: nat): (t: HdrType)
    ensures size < U64_SIZE ==> size <= MaxField(t)
  {
    if size < 32 then Type5
    else if size < 0x100 then Type8
    else if size < 0x1_0000 then Type16
    else if size < 0x1_0000_0000 then Type32
    else Type64
  }

  lemma ReqTypeIsSmallest(size: nat, t: HdrType)
    requires size <= MaxField(t)
    ensures MaxField(ReqType(size)) <= MaxField(t)
  {
  }

  /** The capacity sdsMakeRoomFor asks for. */
  function Preallocated(newlen: nat): nat {
    if newlen < MAX_PREALLOC then newlen * 2 else newlen + MAX_PREALLOC
  }

  /** As many bytes to spare as are asked for, up to one megabyte. */
  lemma Spare(newlen: nat)
    ensures Preallocated(newlen) == newlen + Min(newlen, MAX_PREALLOC)
  {
  }

  /** Type 5 cannot remember free space, so growing never chooses it. */
  function GrowType(size: nat): HdrType {
    if ReqType(size) == Type5 then Type8 else ReqType(size)
  }

  /** It chooses the smallest of the others that can hold the capacity. */
  lemma GrowTypeIsSmallest(size: nat, t: HdrType)
    requires size <= MaxField(t) && t != Type5
    ensures GrowType(size) != Type5 && size <= MaxField(GrowType(size)) <= MaxField(t)
  {
  }

  /** An index of sdsrange, counted from the front of n bytes. */
  function RangeStart(n: nat, i: int): nat {
    if i >= 0 then i else if n + i < 0 then 0 else n + i
  }

  /** What sdsrange keeps of s. */
  function Slice(s: string, start: int, end: int): string {
    var a, b := RangeStart(|s|, start), RangeStart(|s|, end);
    if a > b || a >= |s| then "" else if b >= |s| then s[a..] else s[a..b + 1]
  }

  /** An index -i means the i-th byte from the end, at either end; further back than the string, its first byte. */
  lemma NegativeIndex(s: string, i: int, j: int)
    requires 0 < i
    ensures var k := if i <= |s| then |s| - i else 0;
            Slice(s, -i, j) == Slice(s, k, j) && Slice(s, j, -i) == Slice(s, j, k)
  {
  }

  /** Between two ends inside the string, both included, every byte is kept. */
  lemma KeptBytes(s: string, start: nat, end: nat)
    requires start <= end < |s|
    ensures var t := Slice(s, start, end);
            |t| == end - start + 1 && forall k :: 0 <= k < |t| ==> t[k] == s[start + k]
  {
  }

  /** An end beyond the string is its last byte; a start beyond it, or behind the end, keeps nothing. */
  lemma BeyondTheString(s: string, start: nat, end: nat)
    ensures |s| <= end ==> Slice(s, start, end) == if s == "" then "" else Slice(s, start, |s| - 1)
    ensures start >= |s| || start > end ==> Slice(s, start, end) == ""
  {
  }

  /** So -i to -1 are the last i bytes. */
  lemma LastBytes(s: string, i: int)
    requires 0 < i <= |s|
    ensures Slice(s, -i, -1) == s[|s| - i..]
  {
    NegativeIndex(s, i, -1);
    NegativeIndex(s, 1, |s| - i);
    KeptBytes(s, |s| - i, |s| - 1);
  }

  class Sds {
    var typ: HdrType
    var len: nat
    var cap: nat
    var buf: array<char>
    ghost var moved: nat  // content bytes copied by reallocation so far

    /** sdsalloc. */
    function Alloc(): nat
      reads this
    {
      if typ == Type5 then len else cap
    }

    /** Length and capacity fit the header and the block. */
    ghost predicate Sound()
      reads this
    {
      len <= Alloc() <= MaxField(typ) && Alloc() < buf.Length
    }

    /** Sound and terminated. */
    ghost predicate Valid()
      reads this, buf
    {
      Sound() && buf[len] == '\0'
    }

    ghost function Content(): string
      requires Sound()
      reads this, buf
    {
      buf[..len]
    }

    /** sdsavail. */
    function Avail(): nat
      requires len <= Alloc()
      reads this
    {
      if typ == Type5 then 0 else cap - len
    }

    /** sdssetlen. */
    method SetLen(n: nat)
      modifies `len
      ensures n <= MaxField(typ) ==> len == n
    {
      len := Field(typ, n);
    }

    /** sdsinclen. */
    method IncLen(n: nat)
      modifies `len
      ensures old(len) + n <= MaxField(typ) ==> len == old(len) + n
    {
      len := Field(typ, len + n);
    }

    /** sdssetalloc: type 5 has no such field. */
    method SetAlloc(n: nat)
      modifies `cap
      ensures typ != Type5 && n <= MaxField(typ) ==> cap == n
    {
      if typ != Type5 {
        cap := Field(typ, n);
      }
    }

    /** sdsnewlen: an empty string gets type 8, because strings start empty in order to grow. */
    constructor (init: string)
      requires |init| < U64_SIZE
      ensures Valid() && Content() == init && fresh(buf) && Alloc() == |init| && moved == 0
      ensures typ == if init == "" then Type8 else ReqType(|init|)
    {
      var t := if init == "" then Type8 else ReqType(|init|);
      typ, len, cap, moved := t, Field(t, |init|), Field(t, |init|), 0;
      var b := new char[|init| + 1](i requires 0 <= i <= |init| => if i < |init| then init[i] else '\0');
      buf := b;
    }

    /** A block of n + 1 bytes that starts with the string and its terminator. */
    method Reallocate(n: nat)
      requires len < buf.Length && len <= n
      modifies `buf, `moved
      ensures fresh(buf) && buf.Length == n + 1 && buf[..len + 1] == old(buf[..len + 1])
      ensures moved == old(moved) + len
    {
      var b := new char[n + 1];
      forall i | 0 <= i <= len {
        b[i] := buf[i];
      }
      buf := b;
      moved := moved + len;
      assert buf[..len + 1] == old(buf[..len + 1]);
    }

    /** sdsMakeRoomFor: room for addlen more bytes, the content unchanged. */
    method MakeRoomFor(addlen: nat)
      requires Sound() && len + addlen + MAX_PREALLOC < U64_SIZE
      modifies this
      ensures Sound() && len == old(len) && Content() == old(Content())
      ensures old(Valid()) ==> Valid()
      ensures addlen > 0 ==> Avail() >= addlen
      ensures if old(Avail()) >= addlen
              then buf == old(buf) && typ == old(typ) && cap == old(cap) && moved == old(moved)
              else && Alloc() == Preallocated(len + addlen) && typ == GrowType(Alloc())
                   && fresh(buf) && moved == old(moved) + len
    {
      if Avail() >= addlen {
        return;
      }
      var newlen := len + addlen;
      if newlen < MAX_PREALLOC {
        newlen := newlen * 2;
      } else {
        newlen := newlen + MAX_PREALLOC;
      }
      var t := ReqType(newlen);
      if t == Type5 {
        t := Type8;
      }
      ghost var content := buf[..len + 1];
      Reallocate(newlen);
      assert buf[..len] == content[..len] && buf[len] == content[len];
      if t != typ {
        var n := len;
        typ := t;
        SetLen(n);
      }
      SetAlloc(newlen);
    }

    /** sdsRemoveFreeSpace: the content unchanged, no free byte left. */
    method RemoveFreeSpace()
      requires Valid()
      modifies this
      ensures Valid() && len == old(len) && Content() == old(Content()) && Avail() == 0 && Alloc() == len
      ensures buf == old(buf) || fresh(buf)
      ensures typ != old(typ) ==> typ == ReqType(len) && MaxField(typ) < MaxField(old(typ))
    {
      if Avail() == 0 {
        return;
      }
      var t := ReqType(len);
      ReqTypeIsSmallest(len, typ);
      ghost var content := buf[..len + 1];
      Reallocate(len);
      assert buf[..len] == content[..len] && buf[len] == content[len];
      if typ == t || t.Type16? || t.Type32? || t.Type64? {
        SetAlloc(len);
      } else {
        var n := len;
        typ := t;
        SetLen(n);
        SetAlloc(n);
      }
    }

    /** memcpy to position at, inside the block. */
    method Write(at: nat, t: string)
      requires at + |t| <= buf.Length
      modifies buf
      ensures buf[..] == old(buf[..at]) + t + old(buf[at + |t|..])
    {
      forall i | 0 <= i < |t| {
        buf[at + i] := t[i];
      }
    }

    /** memcpy behind the content, then sdsinclen: no terminator yet. */
    method Extend(t: string)
      requires Sound() && |t| <= Avail()
      modifies `len, buf
      ensures Sound() && Content() == old(Content()) + t
    {
      ghost var content := buf[..len];
      Write(len, t);
      assert buf[..len + |t|] == content + t;
      IncLen(|t|);
    }

    /** sdscatlen. */
    method CatLen(t: string)
      requires Valid() && len + |t| + MAX_PREALLOC < U64_SIZE
      modifies this, buf
      ensures Valid() && Content() == old(Content()) + t
      ensures buf == old(buf) || fresh(buf)
      ensures old(typ) != Type5 ==> typ != Type5
      ensures old(Avail()) >= |t| ==> moved == old(moved) && Alloc() == if typ == Type5 then len else old(cap)
      ensures old(Avail()) < |t| ==> moved == old(moved) + old(len) && Alloc() == Preallocated(old(len) + |t|)
    {
      var curlen := len;
      ghost var content := buf[..len];
      MakeRoomFor(|t|);
      Write(curlen, t);
      SetLen(curlen + |t|);
      buf[curlen + |t|] := '\0';
      assert buf[..len] == content + t;
    }

    /** sdscpylen: the string becomes t. */
    method CpyLen(t: string)
      requires Valid() && |t| + MAX_PREALLOC < U64_SIZE
      modifies this, buf
      ensures Valid() && Content() == t
      ensures buf == old(buf) || fresh(buf)
    {
      if Alloc() < |t| {
        MakeRoomFor(|t| - len);
      }
      Write(0, t);
      buf[|t|] := '\0';
      SetLen(|t|);
      assert buf[..len] == t;
    }

    /** The index arithmetic of sdsrange on a non-empty string of n bytes. */
    static method RangeBounds(n: nat, start: int, end: int) returns (a: int, newlen: int)
      requires n > 0
      ensures 0 <= a && 0 <= newlen && (newlen > 0 ==> a + newlen <= n)
      ensures forall s: string :: |s| == n ==> Slice(s, start, end) == if newlen == 0 then "" else s[a..a + newlen]
    {
      a := start;
      var b := end;
      if a < 0 {
        a := n + a;
        if a < 0 {
          a := 0;
        }
      }
      if b < 0 {
        b := n + b;
        if b < 0 {
          b := 0;
        }
      }
      newlen := if a > b then 0 else b - a + 1;
      if newlen != 0 {
        if a >= n {
          newlen := 0;
        } else if b >= n {
          b := n - 1;
          newlen := if a > b then 0 else b - a + 1;
        }
      } else {
        a := 0;
      }
    }

    /** sdsrange: keeps the bytes from start to end, both included. */
    method Range(start: int, end: int)
      requires Valid()
      modifies this, buf
      ensures Valid() && buf == old(buf) && Content() == Slice(old(Content()), start, end)
    {
      if len == 0 {
        return;
      }
      ghost var s := buf[..len];
      var a, newlen := RangeBounds(len, start, end);
      ghost var kept := Slice(s, start, end);
      assert kept == if newlen == 0 then "" else buf[a..a + newlen] by {
        assert newlen != 0 ==> s[a..a + newlen] == buf[a..a + newlen];
      }
      if a != 0 && newlen != 0 {
        MoveDown(a, newlen);
      }
      assert buf[..newlen] == kept;
      buf[newlen] := '\0';
      assert buf[..newlen] == kept;
      SetLen(newlen);
    }

    /** memmove of n bytes from position a to the front. */
    method MoveDown(a: nat, n: nat)
      requires a + n <= buf.Length
      modifies buf
      ensures buf[..n] == old(buf[a..a + n])
    {
      for i := 0 to n
        invariant buf[..i] == old(buf[a..a + i])
        invariant forall j :: i <= j < buf.Length ==> buf[j] == old(buf[j])
      {
        buf[i] := buf[a + i];
      }
    }
  }
}
