/** Framing: lines ended by CR LF are cut out of arbitrary chunks of received bytes. */
module Service {
  import opened SdsBuffer
  import opened Message
  import opened SdsSplit

  const MAX_BUFFER_SIZE := 512

  /** What the receive loop has done: complete lines, and the bytes of the line being read. */
  datatype Framed = Framed(lines: seq<string>, pending: string)

  predicate EndsWithCr(s: string) {
    s != "" && s[|s| - 1] == '\r'
  }

  /** One received byte. Only LF right behind CR ends a line. */
  function Take(f: Framed, c: char): Framed {
    if c == '\n' && EndsWithCr(f.pending) then Framed(f.lines + [f.pending[..|f.pending| - 1]], "")
    else f.(pending := f.pending + [c])
  }

  function TakeAll(f: Framed, s: string): Framed {
    if s == "" then f else Take(TakeAll(f, s[..|s| - 1]), s[|s| - 1])
  }

  /** The line being read never outgrows the buffer. */
  predicate FitsBuffer(f: Framed, s: string) {
    |TakeAll(f, s).pending| <= MAX_BUFFER_SIZE && (s == "" || FitsBuffer(f, s[..|s| - 1]))
  }

  /** What arrives before the peer closes: a recv of no bytes ends the stream. */
  function Received(chunks: seq<string>): string {
    if chunks == [] || chunks[0] == "" then "" else chunks[0] + Received(chunks[1..])
  }

  /** Cutting the stream elsewhere changes nothing. */
  lemma {:induction false} TakeAppend(f: Framed, a: string, b: string)
    ensures TakeAll(f, a + b) == TakeAll(TakeAll(f, a), b)
    ensures FitsBuffer(f, a + b) ==> FitsBuffer(f, a) && FitsBuffer(TakeAll(f, a), b)
    ensures FitsBuffer(f, a) && FitsBuffer(TakeAll(f, a), b) ==> FitsBuffer(f, a + b)
    decreases |b|
  {
    if b == "" {
      assert a + b == a;
    } else {
      assert (a + b)[..|a + b| - 1] == a + b[..|b| - 1];
      TakeAppend(f, a, b[..|b| - 1]);
    }
  }

  const START := Framed([], "")

  lemma {:induction false} LinesGrow(f: Framed, s: string)
    ensures |f.lines| <= |TakeAll(f, s).lines| && TakeAll(f, s).lines[..|f.lines|] == f.lines
  {
    if s == "" {
    } else {
      LinesGrow(f, s[..|s| - 1]);
    }
  }

  lemma ReceivedNext(chunks: seq<string>, k: nat)
    requires k < |chunks| && |chunks[k]| > 0
    ensures Received(chunks[k..]) == chunks[k] + Received(chunks[k + 1..])
  {
    assert chunks[k..][1..] == chunks[k + 1..];
  }

  lemma ReceivedAll(chunks: seq<string>, k: nat)
    requires k <= |chunks| && (k < |chunks| ==> chunks[k] == "")
    ensures Received(chunks[k..]) == ""
  {
  }

  // ---- lines are what CR LF separates ----------------------------------------

  const CRLF := "\r\n"

  /** No CR LF in the pending bytes, and none before the end of a line. */
  ghost predicate Clean(f: Framed) {
    && !Occurs(CRLF, f.pending) && forall i :: 0 <= i < |f.lines| ==> EndsBefore(f.lines[i], CRLF)
  }

  lemma EndOfLine(line: string)
    requires !Occurs(CRLF, line + ['\r'])
    ensures EndsBefore(line, CRLF)
  {
    forall i | 0 <= i < |line|
      ensures !OccursAt(CRLF, line + CRLF, i)
    {
      assert !OccursAt(CRLF, line + ['\r'], i);
      assert (line + CRLF)[i..i + 2] == (line + ['\r'])[i..i + 2];
    }
  }

  lemma OneMoreByte(s: string, c: char)
    requires !Occurs(CRLF, s) && !(c == '\n' && EndsWithCr(s))
    ensures !Occurs(CRLF, s + [c])
  {
    forall i: nat | i + 2 <= |s| + 1
      ensures !OccursAt(CRLF, s + [c], i)
    {
      if i + 2 <= |s| {
        assert !OccursAt(CRLF, s, i) && (s + [c])[i..i + 2] == s[i..i + 2];
      } else {
        assert (s + [c])[i..i + 2] == [s[i], c] && CRLF[0] == '\r' && CRLF[1] == '\n';
      }
    }
  }

  /** The loop breaks the stream at CR LF, and keeps every byte between. */
  lemma {:induction false} Framing(s: string)
    ensures var f := TakeAll(START, s); Clean(f) && Join(f.lines + [f.pending], CRLF) == s
  {
    hide Clean, Join, Take, Occurs;
    if s == "" {
      NoFrames();
    } else {
      var front, c := s[..|s| - 1], s[|s| - 1];
      Framing(front);
      FramingStep(TakeAll(START, front), c);
      assert front + [c] == s;
    }
  }

  lemma NoFrames()
    ensures Clean(START) && Join(START.lines + [START.pending], CRLF) == ""
  {
    assert START.lines + [START.pending] == [""];
  }

  lemma FramingStep(f: Framed, c: char)
    requires Clean(f)
    ensures Clean(Take(f, c))
    ensures Join(Take(f, c).lines + [Take(f, c).pending], CRLF) == Join(f.lines + [f.pending], CRLF) + [c]
  {
    hide Join;
    JoinAppend(f.lines, f.pending, CRLF);
    if c == '\n' && EndsWithCr(f.pending) {
      var line := f.pending[..|f.pending| - 1];
      assert line + ['\r'] == f.pending && ['\r'] + [c] == CRLF;
      EndOfLine(line);
      JoinAppend(f.lines, line, CRLF);
      JoinAppend(f.lines + [line], "", CRLF);
    } else {
      OneMoreByte(f.pending, c);
      JoinAppend(f.lines, f.pending + [c], CRLF);
    }
  }

  /**
    The lines of a stream and what is left of it are the pieces between its CR LF pairs: a CR
    or LF alone is a byte like any other.
   */
  lemma FramingIsSplit(s: string)
    ensures var f := TakeAll(START, s);
      Split(s, CRLF) == if s == "" then [] else f.lines + [f.pending]
  {
    var f := TakeAll(START, s);
    Framing(s);
    assert Separable(f.lines + [f.pending], CRLF);
    JoinThenSplit(f.lines + [f.pending], CRLF);
  }

  lemma BodyEnds(t: string)
    requires !Occurs(CRLF, t)
    ensures EndsBefore(t, CRLF)
  {
    forall i | 0 <= i < |t|
      ensures !OccursAt(CRLF, t + CRLF, i)
    {
      if i + 2 <= |t| {
        assert !OccursAt(CRLF, t, i) && (t + CRLF)[i..i + 2] == t[i..i + 2];
      } else {
        assert (t + CRLF)[i + 1] == '\r' && CRLF[1] == '\n';
        assert (t + CRLF)[i..i + 2][1] == '\r';
      }
    }
  }

  /** Bodies that hold no CR LF, each ended by one, come out byte for byte as they went in. */
  lemma FramedAsSent(bodies: seq<string>, rest: string)
    requires !Occurs(CRLF, rest) && forall i :: 0 <= i < |bodies| ==> !Occurs(CRLF, bodies[i])
    ensures TakeAll(START, Join(bodies + [rest], CRLF)) == Framed(bodies, rest)
  {
    hide TakeAll, Join, Tokens, Split, Occurs, EndsBefore;
    var ts := bodies + [rest];
    forall i | 0 <= i < |bodies|
      ensures EndsBefore(ts[i], CRLF)
    {
      BodyEnds(bodies[i]);
    }
    JoinIsEmpty(ts, CRLF);
    if ts == [""] {
      assert |bodies| == 0 && ts[0] == rest;
      NothingReceived();
    } else {
      var f := TakeAll(START, Join(ts, CRLF));
      JoinThenSplit(ts, CRLF);
      FramingIsSplit(Join(ts, CRLF));
      SameFrame(f, bodies, rest);
    }
  }

  lemma SameFrame(f: Framed, bodies: seq<string>, rest: string)
    requires f.lines + [f.pending] == bodies + [rest]
    ensures f == Framed(bodies, rest)
  {
    assert (f.lines + [f.pending])[..|bodies|] == f.lines && (bodies + [rest])[..|bodies|] == bodies;
    assert (f.lines + [f.pending])[|bodies|] == f.pending;
  }

  // ---- the receive loop ------------------------------------------------------

  class Client {
    const buffer: array<char>
    var ptr: nat
    var flag: bool

    ghost predicate Valid()
      reads this, buffer
    {
      && buffer.Length == MAX_BUFFER_SIZE && ptr <= MAX_BUFFER_SIZE
      && flag == EndsWithCr(buffer[..ptr])
    }

    ghost function Pending(): string
      requires Valid()
      reads this, buffer
    {
      buffer[..ptr]
    }

    constructor ()
      ensures Valid() && Pending() == "" && fresh(buffer)
    {
      buffer := new char[MAX_BUFFER_SIZE];
      ptr, flag := 0, false;
    }

    /** One byte of the inner loop: the line it completes, if any. */
    method OnByte(c: char, ghost f: Framed) returns (done: bool, command: string)
      requires Valid() && f.pending == Pending() && |Take(f, c).pending| <= MAX_BUFFER_SIZE
      modifies `ptr, `flag, buffer
      ensures Valid() && Pending() == Take(f, c).pending
      ensures Take(f, c).lines == if done then f.lines + [command] else f.lines
      ensures |command| <= MAX_BUFFER_SIZE
    {
      if c == '\n' && flag {
        command := buffer[..ptr - 1];
        done := true;
        assert buffer[..ptr][..ptr - 1] == buffer[..ptr - 1];
        flag := false;
        ptr := 0;
        return;
      }
      ghost var was := buffer[..ptr];
      buffer[ptr] := c;
      ptr := ptr + 1;
      flag := c == '\r';
      assert buffer[..ptr] == was + [c];
      done, command := false, "";
    }
  }

  /** Every line is one the parser can take apart. */
  predicate AllInBounds(lines: seq<string>) {
    forall i :: 0 <= i < |lines| ==> InBounds(lines[i]) && |lines[i]| <= MAX_BUFFER_SIZE
  }

  /** A command line becomes a message. */
  method Dispatch(command: string) returns (msg: Msg)
    requires InBounds(command) && |command| <= MAX_BUFFER_SIZE
    ensures fresh(msg) && fresh(msg.params) && msg.Reads(command)
  {
    var s := new Sds("");
    s.CpyLen(command);
    msg := new Msg();
    var rv := MessageFromString(msg, s);
  }

  /** The whole stream fits the buffer and every line of it can be taken apart. */
  predicate Acceptable(stream: string) {
    FitsBuffer(START, stream) && AllInBounds(TakeAll(START, stream).lines)
  }

  lemma AcceptablePrefix(a: string, b: string)
    requires Acceptable(a + b)
    ensures Acceptable(a)
  {
    TakeAppend(START, a, b);
    LinesGrow(TakeAll(START, a), b);
    var all := TakeAll(START, a + b).lines;
    var lines := TakeAll(START, a).lines;
    forall i | 0 <= i < |lines|
      ensures InBounds(lines[i]) && |lines[i]| <= MAX_BUFFER_SIZE
    {
      assert lines[i] == all[i];
    }
  }

  lemma TakeOne(f: Framed, a: string, c: char)
    ensures TakeAll(f, a + [c]) == Take(TakeAll(f, a), c)
    ensures FitsBuffer(f, a + [c]) <==> FitsBuffer(f, a) && |Take(TakeAll(f, a), c).pending| <= MAX_BUFFER_SIZE
  {
    assert (a + [c])[..|a|] == a;
  }

  /** The messages handed over are the parsed lines, in order. */
  ghost predicate Handed(msgs: seq<Msg>, lines: seq<string>)
    requires AllInBounds(lines)
    reads msgs, set m | m in msgs :: m.params
  {
    |msgs| == |lines| && forall i :: 0 <= i < |msgs| ==> msgs[i].Reads(lines[i])
  }

  /** One byte of a chunk; a completed line is handed over as a message. */
  method OnNext(client: Client, c: char, msgs0: seq<Msg>, ghost seen: string) returns (msgs: seq<Msg>)
    requires client.Valid() && client.Pending() == TakeAll(START, seen).pending
    requires Acceptable(seen) && Acceptable(seen + [c]) && Handed(msgs0, TakeAll(START, seen).lines)
    modifies client, client.buffer
    ensures client.Valid() && client.Pending() == TakeAll(START, seen + [c]).pending
    ensures Handed(msgs, TakeAll(START, seen + [c]).lines)
  {
    hide TakeAll, FitsBuffer, InBounds;
    TakeOne(START, seen, c);
    ghost var lines := TakeAll(START, seen + [c]).lines;
    var done, command := client.OnByte(c, TakeAll(START, seen));
    msgs := msgs0;
    if done {
      assert command == lines[|msgs|];
      var msg := Dispatch(command);
      msgs := msgs + [msg];
    }
  }

  /** One received chunk. */
  method OnChunk(client: Client, chunk: string, msgs0: seq<Msg>, ghost seen: string) returns (msgs: seq<Msg>)
    requires client.Valid() && client.Pending() == TakeAll(START, seen).pending
    requires Acceptable(seen + chunk) && Acceptable(seen) && Handed(msgs0, TakeAll(START, seen).lines)
    modifies client, client.buffer
    ensures client.Valid() && client.Pending() == TakeAll(START, seen + chunk).pending
    ensures Handed(msgs, TakeAll(START, seen + chunk).lines)
  {
    hide TakeAll, FitsBuffer, InBounds, AllInBounds;
    msgs := msgs0;
    assert seen + chunk[..0] == seen;
    for i := 0 to |chunk|
      invariant client.Valid() && client.Pending() == TakeAll(START, seen + chunk[..i]).pending
      invariant Acceptable(seen + chunk[..i]) && Handed(msgs, TakeAll(START, seen + chunk[..i]).lines)
    {
      ghost var sofar := seen + chunk[..i];
      assert seen + chunk[..i + 1] == sofar + [chunk[i]];
      assert seen + chunk == (sofar + [chunk[i]]) + chunk[i + 1..];
      AcceptablePrefix(sofar + [chunk[i]], chunk[i + 1..]);
      msgs := OnNext(client, chunk[i], msgs, sofar);
    }
    assert chunk[..|chunk|] == chunk;
  }

  /** The receive loop with its parsing: whatever the chunks, the messages are those of the whole stream. */
  method ReceiveMessages(chunks: seq<string>) returns (msgs: seq<Msg>)
    requires Acceptable(Received(chunks))
    ensures Handed(msgs, TakeAll(START, Received(chunks)).lines)
  {
    hide TakeAll, FitsBuffer, InBounds, Received;
    var client := new Client();
    msgs := [];
    ghost var seen := "";
    NothingReceived();
    var k := 0;
    assert chunks[0..] == chunks && "" + Received(chunks) == Received(chunks);
    while k < |chunks| && |chunks[k]| > 0
      invariant 0 <= k <= |chunks| && fresh(client) && fresh(client.buffer) && client.Valid()
      invariant seen + Received(chunks[k..]) == Received(chunks)
      invariant client.Pending() == TakeAll(START, seen).pending
      invariant Acceptable(seen) && Handed(msgs, TakeAll(START, seen).lines)
    {
      ReceivedNext(chunks, k);
      assert Received(chunks) == (seen + chunks[k]) + Received(chunks[k + 1..]);
      AcceptablePrefix(seen + chunks[k], Received(chunks[k + 1..]));
      msgs := OnChunk(client, chunks[k], msgs, seen);
      seen := seen + chunks[k];
      k := k + 1;
    }
    ReceivedAll(chunks, k);
    assert seen == Received(chunks);
  }

  // ---- the round trip --------------------------------------------------------

  function Render(m: Outgoing): string {
    Body(m) + "\r\n"
  }

  function RenderAll(ms: seq<Outgoing>): string {
    if ms == [] then "" else RenderAll(ms[..|ms| - 1]) + Render(ms[|ms| - 1])
  }

  function Bodies(ms: seq<Outgoing>): seq<string> {
    seq(|ms|, i requires 0 <= i < |ms| => Body(ms[i]))
  }

  lemma {:induction false} TakeText(ls: seq<string>, x: string)
    requires '\n' !in x && |x| <= MAX_BUFFER_SIZE
    ensures TakeAll(Framed(ls, ""), x) == Framed(ls, x) && FitsBuffer(Framed(ls, ""), x)
  {
    if x == "" {
    } else {
      TakeText(ls, x[..|x| - 1]);
      assert x[..|x| - 1] + [x[|x| - 1]] == x;
    }
  }

  lemma TakeLine(ls: seq<string>, x: string)
    requires '\n' !in x && |x| < MAX_BUFFER_SIZE
    ensures TakeAll(Framed(ls, ""), x + "\r\n") == Framed(ls + [x], "") && FitsBuffer(Framed(ls, ""), x + "\r\n")
  {
    hide TakeAll, FitsBuffer;
    var y := x + ['\r'];
    TakeText(ls, y);
    assert y[..|y| - 1] == x;
    assert x + "\r\n" == y + ['\n'];
    TakeOne(Framed(ls, ""), y, '\n');
  }

  lemma BodyHasNoLf(m: Outgoing)
    requires WellFormed(m)
    ensures '\n' !in Body(m)
  {
    assert SdsSplit.Free('\n', [m.cmd] + m.middle);
    JoinFree([m.cmd] + m.middle, " ", '\n');
  }

  lemma BodyFits(m: Outgoing)
    requires WellFormed(m)
    ensures |Body(m)| <= 510
  {
  }

  lemma NothingReceived()
    ensures TakeAll(START, "") == START && FitsBuffer(START, "")
  {
  }

  lemma {:induction false} FrameAll(ms: seq<Outgoing>)
    requires forall i :: 0 <= i < |ms| ==> WellFormed(ms[i])
    ensures TakeAll(START, RenderAll(ms)) == Framed(Bodies(ms), "") && FitsBuffer(START, RenderAll(ms))
  {
    hide TakeAll, FitsBuffer, Body;
    if ms != [] {
      var front, m := ms[..|ms| - 1], ms[|ms| - 1];
      BodyFits(m);
      FrameAll(front);
      BodyHasNoLf(m);
      TakeLine(Bodies(front), Body(m));
      TakeAppend(START, RenderAll(front), Render(m));
      assert Bodies(ms) == Bodies(front) + [Body(m)];
    } else {
      NothingReceived();
    }
  }

  /** Well-formed messages, rendered and cut into chunks anywhere, are framed and parsed back in order. */
  lemma WireRoundTrip(ms: seq<Outgoing>, chunks: seq<string>)
    requires forall i :: 0 <= i < |ms| ==> WellFormed(ms[i])
    requires Received(chunks) == RenderAll(ms)
    ensures Acceptable(Received(chunks))
    ensures var lines := TakeAll(START, Received(chunks)).lines;
      |lines| == |ms| && forall i :: 0 <= i < |ms| ==> Parsable(lines[i]) && Parse(lines[i]) == Meaning(ms[i])
  {
    hide FitsBuffer, InBounds, Placed, Parse, Body, Meaning, WellFormed;
    FrameAll(ms);
    forall i | 0 <= i < |ms|
      ensures InBounds(Bodies(ms)[i]) && Parsable(Bodies(ms)[i]) && |Bodies(ms)[i]| <= MAX_BUFFER_SIZE
      ensures Parse(Bodies(ms)[i]) == Meaning(ms[i])
    {
      ParseUndoesBody(ms[i]);
      BodyFits(ms[i]);
    }
  }

  /** So the messages handed over for such a stream say exactly what was sent. */
  lemma WireDelivers(ms: seq<Outgoing>, chunks: seq<string>, msgs: seq<Msg>)
    requires forall i :: 0 <= i < |ms| ==> WellFormed(ms[i])
    requires Received(chunks) == RenderAll(ms)
    requires Acceptable(Received(chunks)) && Handed(msgs, TakeAll(START, Received(chunks)).lines)
    ensures |msgs| == |ms| && forall i :: 0 <= i < |ms| ==> msgs[i].Says(Meaning(ms[i]))
  {
    hide TakeAll, FitsBuffer, WellFormed, Meaning, Parse, Placed, Msg.Reads, Msg.Says;
    WireRoundTrip(ms, chunks);
    forall i | 0 <= i < |ms|
      ensures msgs[i].Says(Meaning(ms[i]))
    {
      ReadsSays(msgs[i], TakeAll(START, Received(chunks)).lines[i]);
    }
  }
}
