/**
  One client's connection from bytes to tables: received chunks are framed, parsed and
  carried out, until the stream ends or a command fails.
 */
module ChatSession {
  import opened Optional
  import opened ChatState
  import opened ChatInvariant
  import opened ChatObjects
  import opened ChatContext
  import opened ChatHandlers
  import Message
  import Service

  /** The command table of process_cmd, for the commands modelled. */
  function RequestOf(p: Message.Parsed): Option<Request> {
    if p.cmd == "NICK" then Some(NICK(p.params))
    else if p.cmd == "USER" then Some(USER(p.params))
    else if p.cmd == "JOIN" then Some(JOIN(p.params))
    else if p.cmd == "PART" then Some(PART(p.params, p.longlast))
    else if p.cmd == "MODE" then Some(MODE(p.params))
    else if p.cmd == "OPER" then Some(OPER(p.params))
    else if p.cmd == "PRIVMSG" then Some(PRIVMSG(p.params, p.longlast))
    else if p.cmd == "LUSERS" then Some(LUSERS)
    else None
  }

  /** The line is a command the model knows. */
  predicate IsCommand(line: string) {
    Message.Parsable(line) && RequestOf(Message.Parse(line)).Some?
  }

  function Asked(line: string): Request
    requires IsCommand(line)
  {
    RequestOf(Message.Parse(line)).value
  }

  datatype Session = Open(state: State) | Closed(state: State)

  /** The session after these lines: a failing command closes it. */
  ghost function Run(s: State, fd: Fd, lines: seq<string>): Session {
    if lines == [] then Open(s)
    else
      var before, line := Run(s, fd, lines[..|lines| - 1]), lines[|lines| - 1];
      if before.Closed? || fd !in before.state.clients || !IsCommand(line)
        || Crashes(before.state, Do(fd, Asked(line))) then before
      else
        var t := Handle(before.state, fd, Asked(line));
        if Fails(before.state, fd, Asked(line)) && Droppable(t, fd) then Closed(Drop(t, fd)) else Open(t)
  }

  /** What one more line asks of a session that is still open. */
  ghost predicate Acceptable(session: Session, fd: Fd, line: string) {
    session.Open? ==>
      && IsCommand(line) && Legal(session.state, Do(fd, Asked(line)))
      && (Fails(session.state, fd, Asked(line)) ==> MayLeave(session.state, fd))
  }

  /** Every line read while the session is open is a legal command. */
  ghost predicate Proper(s: State, fd: Fd, lines: seq<string>) {
    lines == [] ||
    (Proper(s, fd, lines[..|lines| - 1]) && Acceptable(Run(s, fd, lines[..|lines| - 1]), fd, lines[|lines| - 1]))
  }

  /** The peer closes the stream: free_data, unless a command did. */
  ghost function Ended(session: Session, fd: Fd): State
    requires session.Open? ==> Droppable(session.state, fd)
  {
    if session.Closed? then session.state else Drop(session.state, fd)
  }

  lemma {:induction false} ProperPrefix(s: State, fd: Fd, lines: seq<string>, k: nat)
    requires Proper(s, fd, lines) && k <= |lines|
    ensures Proper(s, fd, lines[..k])
    ensures Run(s, fd, lines[..k]).Closed? ==> Run(s, fd, lines) == Run(s, fd, lines[..k])
    decreases |lines|
  {
    if k < |lines| {
      var front := lines[..|lines| - 1];
      ProperPrefix(s, fd, front, k);
      assert front[..k] == lines[..k];
    } else {
      assert lines[..k] == lines;
    }
  }

  /** A failing command leaves the state as it was. */
  lemma FailingKeeps(s: State, fd: Fd, request: Request)
    requires Inv(s) && fd in s.clients && Fails(s, fd, request)
    ensures Handle(s, fd, request) == s
  {
    assert ClientOk(s.clients[fd]);
  }

  /** process_cmd: the command's handler, with the message's parameters. */
  method ReadRequest(msg: Message.Msg, ghost p: Message.Parsed) returns (request: Option<Request>)
    requires msg.Says(p)
    ensures request == RequestOf(p)
  {
    var params := [];
    for i := 0 to msg.nparams
      invariant params == p.params[..i]
    {
      params := params + [msg.params[i].value];
    }
    assert p.params[..msg.nparams] == p.params;
    request := RequestOf(Message.Parsed(msg.cmd.value, params, msg.longlast));
  }

  /** What a parsable line says, as a request. */
  method ParseLine(line: string) returns (request: Request)
    requires |line| <= Service.MAX_BUFFER_SIZE && IsCommand(line)
    ensures request == Asked(line)
  {
    hide Message.InBounds, Message.Placed, Message.Parse, RequestOf;
    var msg := Service.Dispatch(line);
    Message.ReadsSays(msg, line);
    var read := ReadRequest(msg, Message.Parse(line));
    request := read.value;
  }

  /** message_from_string and process_cmd on one line; a failure closes the client. */
  method OnCommand(ctx: Context, u: User, line: string) returns (closed: bool)
    requires |line| <= Service.MAX_BUFFER_SIZE && ctx.Valid() && ctx.Mine(u) && Inv(ctx.Model())
    requires Acceptable(Open(ctx.Model()), u.clientFd, line)
    modifies ctx, ctx.clients.Values, ctx.connections.entries.Values, ctx.channels.entries.Values
    ensures ctx.Valid() && Inv(ctx.Model()) && (!closed ==> ctx.Mine(u))
    ensures var s, fd := old(ctx.Model()), u.clientFd;
      fd in s.clients && Run(s, fd, [line]) == if closed then Closed(ctx.Model()) else Open(ctx.Model())
    ensures !closed ==> ctx.clients == old(ctx.clients) && ctx.connections == old(ctx.connections)
    ensures closed ==>
      && ctx.clients == old(ctx.clients) - {u.clientFd}
      && ctx.connections.entries == old(ctx.connections.entries) - {u.clientFd}
    ensures fresh(ctx.channels.entries.Values - old(ctx.channels.entries.Values))
  {
    hide Context.Valid, Inv, Handle, IsCommand, Asked;
    ghost var s, fd := ctx.Model(), u.clientFd;
    ctx.ClientOf(u);
    RunOne(s, fd, line);
    assert allocated(ctx.clients) && allocated(ctx.connections.entries) && allocated(ctx.channels.entries);
    var request := ParseLine(line);
    var rv := ProcessCmd(ctx, u, request);
    closed := rv == FAILURE;
    if closed {
      FailingKeeps(s, fd, request);
      TakeInv(s, Disconnect(fd));
      RegisteredHasNick(s, fd);
      ctx.ClientOf(u);
      ctx.FreeData(u);
    }
  }

  lemma RunOne(s: State, fd: Fd, line: string)
    requires fd in s.clients && IsCommand(line) && !Crashes(s, Do(fd, Asked(line)))
    ensures var t := Handle(s, fd, Asked(line));
      Run(s, fd, [line]) == if Fails(s, fd, Asked(line)) && Droppable(t, fd) then Closed(Drop(t, fd)) else Open(t)
  {
    hide Handle;
    assert [line][..0] == [];
    assert Run(s, fd, []) == Open(s);
  }

  lemma RunStep(s: State, fd: Fd, lines: seq<string>, line: string)
    requires Run(s, fd, lines).Open?
    ensures Run(s, fd, lines + [line]) == Run(Run(s, fd, lines).state, fd, [line])
  {
    hide Handle, Fails, IsCommand, Asked;
    assert (lines + [line])[..|lines|] == lines;
    assert [line][..0] == [];
    assert Run(Run(s, fd, lines).state, fd, []) == Open(Run(s, fd, lines).state);
  }

  lemma ProperStep(s: State, fd: Fd, lines: seq<string>, line: string)
    requires Proper(s, fd, lines + [line])
    ensures Proper(s, fd, lines) && Acceptable(Run(s, fd, lines), fd, line)
  {
    assert (lines + [line])[..|lines|] == lines;
  }

  /** The lines of the stream so far. */
  function LinesOf(seen: string): seq<string> {
    Service.TakeAll(Service.START, seen).lines
  }

  /** The receive buffer holds the line being read. */
  ghost predicate Holding(client: Service.Client, seen: string)
    reads client, client.buffer
  {
    client.Valid() && client.Pending() == Service.TakeAll(Service.START, seen).pending
  }

  /** One byte of the receive loop. */
  method OnReceived(ctx: Context, u: User, client: Service.Client, c: char, ghost s: State, ghost seen: string)
    returns (closed: bool)
    requires ctx.Valid() && ctx.Mine(u) && Inv(ctx.Model()) && Holding(client, seen)
    requires Service.FitsBuffer(Service.START, seen + [c]) && Proper(s, u.clientFd, LinesOf(seen + [c]))
    requires Run(s, u.clientFd, LinesOf(seen)) == Open(ctx.Model())
    modifies ctx, ctx.clients.Values, ctx.connections.entries.Values, ctx.channels.entries.Values
    modifies client`ptr, client`flag, client.buffer
    ensures ctx.Valid() && Inv(ctx.Model()) && Holding(client, seen + [c])
    ensures Run(s, u.clientFd, LinesOf(seen + [c])) == if closed then Closed(ctx.Model()) else Open(ctx.Model())
    ensures !closed ==> ctx.Mine(u) && ctx.clients == old(ctx.clients) && ctx.connections == old(ctx.connections)
    ensures fresh(ctx.channels.entries.Values - old(ctx.channels.entries.Values))
  {
    hide Context.Valid, Inv, Service.TakeAll, Service.FitsBuffer, Proper, Run, Acceptable;
    Service.TakeOne(Service.START, seen, c);
    assert allocated(ctx.clients) && allocated(ctx.connections.entries) && allocated(ctx.channels.entries);
    var done, command := client.OnByte(c, Service.TakeAll(Service.START, seen));
    closed := false;
    if done {
      ProperStep(s, u.clientFd, LinesOf(seen), command);
      RunStep(s, u.clientFd, LinesOf(seen), command);
      closed := OnCommand(ctx, u, command);
    }
  }

  /** What arrives behind a line changes neither the lines before it nor what they did. */
  lemma ReadOn(s: State, fd: Fd, seen: string, more: string)
    requires Proper(s, fd, LinesOf(seen + more)) && Service.FitsBuffer(Service.START, seen + more)
    ensures Proper(s, fd, LinesOf(seen)) && Service.FitsBuffer(Service.START, seen)
    ensures Run(s, fd, LinesOf(seen)).Closed? ==> Run(s, fd, LinesOf(seen + more)) == Run(s, fd, LinesOf(seen))
  {
    hide Proper, Run;
    Service.TakeAppend(Service.START, seen, more);
    Service.LinesGrow(Service.TakeAll(Service.START, seen), more);
    ProperPrefix(s, fd, LinesOf(seen + more), |LinesOf(seen)|);
  }

  /** One received chunk; the rest of it is dropped once a command failed. */
  method OnChunk(ctx: Context, u: User, client: Service.Client, chunk: string, ghost s: State, ghost seen: string)
    returns (closed: bool)
    requires ctx.Valid() && ctx.Mine(u) && Inv(ctx.Model()) && Holding(client, seen)
    requires Service.FitsBuffer(Service.START, seen + chunk) && Proper(s, u.clientFd, LinesOf(seen + chunk))
    requires Run(s, u.clientFd, LinesOf(seen)) == Open(ctx.Model())
    modifies ctx, ctx.clients.Values, ctx.connections.entries.Values, ctx.channels.entries.Values
    modifies client`ptr, client`flag, client.buffer
    ensures ctx.Valid() && Inv(ctx.Model()) && (!closed ==> Holding(client, seen + chunk))
    ensures Run(s, u.clientFd, LinesOf(seen + chunk)) == if closed then Closed(ctx.Model()) else Open(ctx.Model())
    ensures !closed ==> ctx.Mine(u) && ctx.clients == old(ctx.clients) && ctx.connections == old(ctx.connections)
    ensures fresh(ctx.channels.entries.Values - old(ctx.channels.entries.Values))
  {
    hide Context.Valid, Inv, LinesOf, Service.FitsBuffer, Proper, Run, Holding;
    closed := false;
    assert seen + chunk[..0] == seen;
    for i := 0 to |chunk|
      invariant ctx.Valid() && ctx.Mine(u) && Inv(ctx.Model()) && Holding(client, seen + chunk[..i])
      invariant Run(s, u.clientFd, LinesOf(seen + chunk[..i])) == Open(ctx.Model())
      invariant ctx.clients == old(ctx.clients) && ctx.connections == old(ctx.connections) && !closed
      invariant fresh(ctx.channels.entries.Values - old(ctx.channels.entries.Values))
    {
      ghost var now := seen + chunk[..i] + [chunk[i]];
      assert now == seen + chunk[..i + 1] && now + chunk[i + 1..] == seen + chunk;
      ReadOn(s, u.clientFd, now, chunk[i + 1..]);
      closed := OnReceived(ctx, u, client, chunk[i], s, seen + chunk[..i]);
      if closed {
        return;
      }
    }
    assert chunk[..|chunk|] == chunk;
  }

  /**
    service_single_client: however the bytes arrive, the tables end as the commands of the
    stream leave them, the client gone.
   */
  method ServiceSingleClient(ctx: Context, u: User, chunks: seq<string>)
    requires ctx.Valid() && ctx.Mine(u) && Inv(ctx.Model())
    requires Service.FitsBuffer(Service.START, Service.Received(chunks))
    requires Proper(ctx.Model(), u.clientFd, LinesOf(Service.Received(chunks)))
    requires var session := Run(ctx.Model(), u.clientFd, LinesOf(Service.Received(chunks)));
      session.Open? ==> u.clientFd in session.state.clients && MayLeave(session.state, u.clientFd)
    modifies ctx, ctx.clients.Values, ctx.connections.entries.Values, ctx.channels.entries.Values
    ensures ctx.Valid() && Inv(ctx.Model())
    ensures ctx.Model() == Ended(Run(old(ctx.Model()), u.clientFd, LinesOf(Service.Received(chunks))), u.clientFd)
  {
    hide Context.Valid, Inv, LinesOf, Service.FitsBuffer, Proper, Run, Holding, Service.Received;
    ghost var s, fd := ctx.Model(), u.clientFd;
    assert allocated(ctx.clients) && allocated(ctx.connections.entries) && allocated(ctx.channels.entries);
    var client := new Service.Client();
    NothingRead(s, fd, client);
    ghost var seen := "";
    var k := 0;
    assert chunks[0..] == chunks && "" + Service.Received(chunks) == Service.Received(chunks);
    while k < |chunks| && |chunks[k]| > 0
      invariant k <= |chunks| && fresh(client) && fresh(client.buffer) && Holding(client, seen)
      invariant ctx.Valid() && ctx.Mine(u) && Inv(ctx.Model()) && Run(s, fd, LinesOf(seen)) == Open(ctx.Model())
      invariant ctx.clients == old(ctx.clients) && ctx.connections == old(ctx.connections)
      invariant fresh(ctx.channels.entries.Values - old(ctx.channels.entries.Values))
      invariant seen + Service.Received(chunks[k..]) == Service.Received(chunks)
    {
      Service.ReceivedNext(chunks, k);
      ghost var now := seen + chunks[k];
      assert now + Service.Received(chunks[k + 1..]) == Service.Received(chunks);
      ReadOn(s, fd, now, Service.Received(chunks[k + 1..]));
      var closed := OnChunk(ctx, u, client, chunks[k], s, seen);
      if closed {
        return;
      }
      seen, k := now, k + 1;
    }
    Service.ReceivedAll(chunks, k);
    assert seen == Service.Received(chunks);
    ctx.ClientOf(u);
    TakeInv(ctx.Model(), Disconnect(fd));
    RegisteredHasNick(ctx.Model(), fd);
    ctx.FreeData(u);
  }

  lemma NothingRead(s: State, fd: Fd, client: Service.Client)
    requires client.Valid() && client.Pending() == ""
    ensures Holding(client, "") && Run(s, fd, LinesOf("")) == Open(s)
  {
  }

  // ---- requests as they are written ------------------------------------------

  /** The message is a writing of the request; where it matters, longlast says that there is a trailing parameter. */
  predicate Spells(m: Message.Outgoing, r: Request) {
    var params := m.middle + if m.trailing.Some? then [m.trailing.value] else [];
    match r
    case NICK(ps) => m.cmd == "NICK" && params == ps
    case USER(ps) => m.cmd == "USER" && params == ps
    case JOIN(ps) => m.cmd == "JOIN" && params == ps
    case PART(ps, longlast) => m.cmd == "PART" && params == ps && m.trailing.Some? == longlast
    case MODE(ps) => m.cmd == "MODE" && params == ps
    case OPER(ps) => m.cmd == "OPER" && params == ps
    case PRIVMSG(ps, longlast) => m.cmd == "PRIVMSG" && params == ps && m.trailing.Some? == longlast
    case LUSERS => m.cmd == "LUSERS"
  }

  lemma DifferentCommands(c: string)
    ensures (c == "NICK" ==> c[0] == 'N') && (c == "USER" ==> c[0] == 'U') && (c == "JOIN" ==> c[0] == 'J')
    ensures (c == "PART" ==> c[1] == 'A') && (c == "MODE" ==> c[0] == 'M') && (c == "OPER" ==> c[0] == 'O')
    ensures (c == "PRIVMSG" ==> c[0] == 'P' && c[1] == 'R') && (c == "LUSERS" ==> c[0] == 'L')
    ensures c == "PART" ==> c[0] == 'P'
  {
  }

  lemma SpellsOneRequest(m: Message.Outgoing, r: Request)
    requires Spells(m, r)
    ensures RequestOf(Message.Meaning(m)) == Some(r)
  {
    DifferentCommands(m.cmd);
    assert m.middle + [] == m.middle;
  }

  /** What the model takes for a command is a writing of one of these requests. */
  lemma CommandsOnly(m: Message.Outgoing)
    requires Message.WellFormed(m)
    ensures IsCommand(Message.Body(m)) <==> exists r :: Spells(m, r)
  {
    hide Message.Parsable, Message.Parse, Message.WellFormed, Message.Body;
    Message.ParseUndoesBody(m);
    if IsCommand(Message.Body(m)) {
      var r := Asked(Message.Body(m));
      assert m.middle + [] == m.middle;
      assert Spells(m, r);
    } else {
      forall r | Spells(m, r)
        ensures false
      {
        SpellsOneRequest(m, r);
      }
    }
  }

  /** A stream that writes requests, cut into chunks anywhere, asks for exactly these, in order. */
  lemma AskedIsSent(ms: seq<Message.Outgoing>, rs: seq<Request>, chunks: seq<string>)
    requires |ms| == |rs| && forall i :: 0 <= i < |ms| ==> Message.WellFormed(ms[i]) && Spells(ms[i], rs[i])
    requires Service.Received(chunks) == Service.RenderAll(ms)
    ensures Service.FitsBuffer(Service.START, Service.Received(chunks))
    ensures var lines := LinesOf(Service.Received(chunks));
      |lines| == |rs| && forall i :: 0 <= i < |rs| ==> IsCommand(lines[i]) && Asked(lines[i]) == rs[i]
  {
    hide Service.TakeAll, Service.FitsBuffer, Message.Meaning, Message.Parse, Message.WellFormed, RequestOf, Spells;
    Service.WireRoundTrip(ms, chunks);
    forall i | 0 <= i < |rs|
      ensures RequestOf(Message.Meaning(ms[i])) == Some(rs[i])
    {
      SpellsOneRequest(ms[i], rs[i]);
    }
  }

  /** The session after these requests. */
  ghost function Carried(s: State, fd: Fd, rs: seq<Request>): Session {
    if rs == [] then Open(s)
    else
      var before, r := Carried(s, fd, rs[..|rs| - 1]), rs[|rs| - 1];
      if before.Closed? || fd !in before.state.clients || Crashes(before.state, Do(fd, r)) then before
      else
        var t := Handle(before.state, fd, r);
        if Fails(before.state, fd, r) && Droppable(t, fd) then Closed(Drop(t, fd)) else Open(t)
  }

  lemma {:induction false} LinesCarried(s: State, fd: Fd, lines: seq<string>, rs: seq<Request>)
    requires |lines| == |rs| && forall i :: 0 <= i < |rs| ==> IsCommand(lines[i]) && Asked(lines[i]) == rs[i]
    ensures Run(s, fd, lines) == Carried(s, fd, rs)
  {
    hide IsCommand, Asked, Handle, Fails;
    if rs == [] {
    } else {
      LinesCarried(s, fd, lines[..|lines| - 1], rs[..|rs| - 1]);
    }
  }

  /** The session of a client that sends such a stream carries out these requests. */
  lemma SentIsCarried(s: State, fd: Fd, ms: seq<Message.Outgoing>, rs: seq<Request>, chunks: seq<string>)
    requires |ms| == |rs| && forall i :: 0 <= i < |ms| ==> Message.WellFormed(ms[i]) && Spells(ms[i], rs[i])
    requires Service.Received(chunks) == Service.RenderAll(ms)
    ensures Run(s, fd, LinesOf(Service.Received(chunks))) == Carried(s, fd, rs)
  {
    hide IsCommand, Asked, LinesOf, Run, Carried, Message.WellFormed, Spells, Service.Received;
    AskedIsSent(ms, rs, chunks);
    LinesCarried(s, fd, LinesOf(Service.Received(chunks)), rs);
  }

  /** A request ends the session exactly when it is a NICK, or a registered client's JOIN, with an empty name. */
  lemma EndsSession(s: State, fd: Fd, r: Request)
    requires Inv(s) && fd in s.clients && MayLeave(s, fd) && !Crashes(s, Do(fd, r))
    ensures Carried(s, fd, [r]) ==
      if (r.NICK? || (r.JOIN? && s.clients[fd].registered)) && r.params != [] && r.params[0] == ""
      then Closed(Drop(s, fd)) else Open(Handle(s, fd, r))
  {
    hide Handle, Inv;
    assert [r][..0] == [] && Carried(s, fd, []) == Open(s);
    if Fails(s, fd, r) {
      FailingKeeps(s, fd, r);
    }
  }
}
