/** Whole runs on one string: growing, shrinking, appending, replacing and cutting, in any order. */
module SdsRun {
  import opened Bits
  import opened SdsBuffer

  datatype Op = MakeRoom(addlen: nat) | RemoveFree | Cat(text: string) | Copy(text: string) | Keep(start: int, end: int)

  /** What an operation does to the content. */
  function Change(s: string, op: Op): string {
    match op
    case MakeRoom(_) => s
    case RemoveFree => s
    case Cat(t) => s + t
    case Copy(t) => t
    case Keep(start, end) => Slice(s, start, end)
  }

  function After(s: string, ops: seq<Op>): string {
    if ops == [] then s else Change(After(s, ops[..|ops| - 1]), ops[|ops| - 1])
  }

  /** Lengths and capacities stay 64-bit sizes. */
  predicate Sized(s: string, op: Op) {
    match op
    case MakeRoom(n) => |s| + n + MAX_PREALLOC < U64_SIZE
    case Cat(t) => |s| + |t| + MAX_PREALLOC < U64_SIZE
    case Copy(t) => |t| + MAX_PREALLOC < U64_SIZE
    case _ => true
  }

  /** Room made stays until the next operation. */
  ghost predicate Room(s: Sds, op: Op)
    reads s
  {
    s.Sound() && (op.MakeRoom? && op.addlen > 0 ==> s.Avail() >= op.addlen) && (op.RemoveFree? ==> s.Avail() == 0)
  }

  method Perform(s: Sds, op: Op)
    requires s.Valid() && Sized(s.Content(), op)
    modifies s, s.buf
    ensures s.Valid() && s.Content() == Change(old(s.Content()), op) && Room(s, op)
    ensures s.buf == old(s.buf) || fresh(s.buf)
  {
    match op {
      case MakeRoom(n) => s.MakeRoomFor(n);
      case RemoveFree => s.RemoveFreeSpace();
      case Cat(t) => s.CatLen(t);
      case Copy(t) => s.CpyLen(t);
      case Keep(start, end) => s.Range(start, end);
    }
  }

  /**
    Header soundness over every run: length and capacity fit the header, the block holds them
    and the terminator, and the content is what the operations make of it, whatever header
    types the string went through.
   */
  method Replay(init: string, ops: seq<Op>) returns (s: Sds)
    requires |init| < U64_SIZE
    requires forall i :: 0 <= i < |ops| ==> Sized(After(init, ops[..i]), ops[i])
    ensures fresh(s) && s.Valid() && s.Content() == After(init, ops)
    ensures s.len <= s.Alloc() <= MaxField(s.typ) && s.Alloc() < s.buf.Length && s.buf[s.len] == '\0'
    ensures ops != [] ==> Room(s, ops[|ops| - 1])
  {
    hide Change, Slice;
    s := new Sds(init);
    for i := 0 to |ops|
      invariant fresh(s) && fresh(s.buf) && s.Valid() && s.Content() == After(init, ops[..i])
      invariant i > 0 ==> Room(s, ops[i - 1])
    {
      assert ops[..i + 1][..i] == ops[..i];
      Perform(s, ops[i]);
    }
    assert ops[..|ops|] == ops;
  }
}
