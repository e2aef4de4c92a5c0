/**
  The whole server, from the bytes of all its clients to its tables. A byte a client's thread
  takes up is one event, so that any cutting of the streams into chunks and any interleaving
  of the threads is a sequence of events.
 */
module ChatServer {
  import opened Optional
  import opened ChatState
  import opened ChatInvariant
  import opened ChatObjects
  import opened ChatContext
  import opened ChatHandlers
  import opened ChatSession
  import Message
  import Service

  datatype Event = Accept(fd: Fd) | Byte(fd: Fd, c: char) | Hangup(fd: Fd)

  /** The state, what each connected client sent since it came, and the steps taken. */
  datatype Served = Served(state: State, streams: map<Fd, string>, run: seq<Step>)

  /** The line that this byte completes. */
  function Completed(seen: string, c: char): Option<string> {
    var pending := Service.TakeAll(Service.START, seen).pending;
    if c == '\n' && Service.EndsWithCr(pending) then Some(pending[..|pending| - 1]) else None
  }

  ghost function Doing(v: Served, step: Step): Served {
    if Present(v.state, step) && !Crashes(v.state, step)
    then v.(state := Take(v.state, step), run := v.run + [step]) else v
  }

  /** A connected client's line: the step it asks for, and the end of the client if that fails. */
  ghost function OnLine(v: Served, fd: Fd, line: string, seen: string): Served
    requires IsCommand(line) && fd in v.state.clients
  {
    var w := Doing(v, Do(fd, Asked(line)));
    if Fails(v.state, fd, Asked(line)) then Doing(w, Disconnect(fd)).(streams := v.streams - {fd})
    else w.(streams := v.streams[fd := seen])
  }

  /** Bytes of a client that is gone are dropped. */
  ghost function Next(v: Served, e: Event): Served {
    match e
    case Accept(fd) => Doing(v, Connect(fd)).(streams := v.streams[fd := ""])
    case Hangup(fd) => if fd in v.streams then Doing(v, Disconnect(fd)).(streams := v.streams - {fd}) else v
    case Byte(fd, c) =>
      if fd !in v.streams then v
      else
        var seen, line := v.streams[fd], Completed(v.streams[fd], c);
        if line.Some? && IsCommand(line.value) && fd in v.state.clients then OnLine(v, fd, line.value, seen + [c])
        else v.(streams := v.streams[fd := seen + [c]])
  }

  ghost function Arrived(password: string, events: seq<Event>): Served {
    if events == [] then Served(Initial(password), map[], [])
    else Next(Arrived(password, events[..|events| - 1]), events[|events| - 1])
  }

  /** A new socket; a client that may go; a byte that fits the buffer and completes at most a legal command. */
  ghost predicate Fine(v: Served, e: Event) {
    match e
    case Accept(fd) => fd !in v.streams
    case Hangup(fd) => fd in v.streams && fd in v.state.clients ==> MayLeave(v.state, fd)
    case Byte(fd, c) =>
      fd in v.streams ==>
        && |Service.Take(Service.TakeAll(Service.START, v.streams[fd]), c).pending| <= Service.MAX_BUFFER_SIZE
        && var line := Completed(v.streams[fd], c);
           line.Some? ==> Acceptable(Open(v.state), fd, line.value)
  }

  ghost predicate AllFine(password: string, events: seq<Event>) {
    events == [] ||
    (AllFine(password, events[..|events| - 1]) && Fine(Arrived(password, events[..|events| - 1]), events[|events| - 1]))
  }

  // ---- the events of all clients make a run of steps -------------------------

  /** The steps were legal and led to the state; the streams are those of the connected clients. */
  ghost predicate Sound(password: string, v: Served) {
    LegalRun(password, v.run) && v.state == After(password, v.run) && v.streams.Keys == v.state.clients.Keys
  }

  lemma DoingLegal(password: string, v: Served, step: Step)
    requires LegalRun(password, v.run) && v.state == After(password, v.run) && Legal(v.state, step)
    ensures Present(v.state, step) && !Crashes(v.state, step)
    ensures var w := Doing(v, step);
      LegalRun(password, w.run) && w.state == After(password, w.run) && w.state == Take(v.state, step)
      && w.run == v.run + [step] && w.streams == v.streams
  {
    hide Take, Legal;
    LegalIsPresent(v.state, step);
    assert (v.run + [step])[..|v.run|] == v.run;
  }

  lemma SameSocketsNamed(s: State, fd: Fd, params: seq<string>)
    requires fd in s.clients
    ensures HandleNick(s, fd, params).clients.Keys == s.clients.Keys
    ensures !UserLacksNick(s.clients[fd], params) ==> HandleUser(s, fd, params).clients.Keys == s.clients.Keys
  {
    hide LusersReply, Shared, UserLacksNick;
  }

  lemma SameSocketsRegistered(s: State, fd: Fd, nick: Nick, request: Request)
    requires fd in s.clients
    requires request.PART? ==> !PartLacksFarewell(s, nick, request.params, request.longlast)
    ensures HandleRegistered(s, fd, nick, request).clients.Keys == s.clients.Keys
  {
    hide LusersReply, Reaches, PartLacksFarewell;
  }

  /** A request changes no socket. */
  lemma SameSockets(s: State, fd: Fd, request: Request)
    requires fd in s.clients && !Crashes(s, Do(fd, request))
    ensures Handle(s, fd, request).clients.Keys == s.clients.Keys
  {
    hide HandleNick, HandleUser, HandleRegistered, PartLacksFarewell, UserLacksNick;
    match request
    case NICK(params) => SameSocketsNamed(s, fd, params);
    case USER(params) => SameSocketsNamed(s, fd, params);
    case _ =>
      if s.clients[fd].registered && s.clients[fd].nick.Some? {
        SameSocketsRegistered(s, fd, s.clients[fd].nick.value, request);
      }
  }

  lemma LineSound(password: string, v: Served, fd: Fd, line: string, seen: string)
    requires Sound(password, v) && fd in v.state.clients && Acceptable(Open(v.state), fd, line)
    ensures IsCommand(line) && !Crashes(v.state, Do(fd, Asked(line)))
    ensures var w := OnLine(v, fd, line, seen);
      && Sound(password, w)
      && (Fails(v.state, fd, Asked(line)) ==>
            v.run + [Do(fd, Asked(line))] + [Disconnect(fd)] == w.run && w.streams == v.streams - {fd})
      && (!Fails(v.state, fd, Asked(line)) ==>
            v.run + [Do(fd, Asked(line))] == w.run && w.streams == v.streams[fd := seen])
      && Run(v.state, fd, [line]) == if Fails(v.state, fd, Asked(line)) then Closed(w.state) else Open(w.state)
  {
    hide After, LegalRun, Handle, IsCommand, Asked, Run, Inv, Fails;
    var step := Do(fd, Asked(line));
    ReachableInv(password, v.run);
    DoingLegal(password, v, step);
    RunOne(v.state, fd, line);
    SameSockets(v.state, fd, Asked(line));
    if Fails(v.state, fd, Asked(line)) {
      FailingKeeps(v.state, fd, Asked(line));
      DoingLegal(password, Doing(v, step), Disconnect(fd));
    }
  }

  /** Every event leaves the server in a state that a legal run leads to. */
  lemma NextSound(password: string, v: Served, e: Event)
    requires Sound(password, v) && Fine(v, e)
    ensures Sound(password, Next(v, e))
  {
    hide After, LegalRun, OnLine, Handle, Acceptable;
    match e
    case Accept(fd) => DoingLegal(password, v, Connect(fd));
    case Hangup(fd) =>
      if fd in v.streams {
        DoingLegal(password, v, Disconnect(fd));
      }
    case Byte(fd, c) =>
      if fd in v.streams && Completed(v.streams[fd], c).Some? {
        LineSound(password, v, fd, Completed(v.streams[fd], c).value, v.streams[fd] + [c]);
      }
  }

  lemma {:induction false} ArrivedSound(password: string, events: seq<Event>)
    requires AllFine(password, events)
    ensures Sound(password, Arrived(password, events))
  {
    hide Next, Fine;
    if events == [] {
    } else {
      ArrivedSound(password, events[..|events| - 1]);
      NextSound(password, Arrived(password, events[..|events| - 1]), events[|events| - 1]);
    }
  }

  // ---- what one client does is what it sent ----------------------------------

  /** What a client asked for since it came. */
  function Requests(run: seq<Step>, fd: Fd): seq<Request> {
    if run == [] then []
    else
      var step := run[|run| - 1];
      if step == Connect(fd) then []
      else Requests(run[..|run| - 1], fd) + if step.Do? && step.fd == fd then [step.request] else []
  }

  /** These lines ask for these requests. */
  predicate AskFor(lines: seq<string>, requests: seq<Request>) {
    |lines| == |requests| && forall i :: 0 <= i < |lines| ==> IsCommand(lines[i]) && Asked(lines[i]) == requests[i]
  }

  /** Each connected client did what the lines of its own stream ask for. */
  ghost predicate OwnLines(v: Served) {
    forall fd :: fd in v.streams ==> AskFor(LinesOf(v.streams[fd]), Requests(v.run, fd))
  }

  lemma RequestsOn(run: seq<Step>, step: Step, fd: Fd)
    ensures Requests(run + [step], fd) ==
      if step == Connect(fd) then []
      else Requests(run, fd) + if step.Do? && step.fd == fd then [step.request] else []
  {
    assert (run + [step])[..|run|] == run;
  }

  lemma LinesOn(seen: string, c: char)
    ensures LinesOf(seen + [c]) == LinesOf(seen) + if Completed(seen, c).Some? then [Completed(seen, c).value] else []
  {
    Service.TakeOne(Service.START, seen, c);
  }

  lemma NextOwn(password: string, v: Served, e: Event)
    requires Sound(password, v) && Fine(v, e) && OwnLines(v)
    ensures OwnLines(Next(v, e))
  {
    hide After, LegalRun, OnLine, Handle, Acceptable, IsCommand, Asked, LinesOf, Completed, Take, Requests;
    var w := Next(v, e);
    forall fd | fd in w.streams
      ensures AskFor(LinesOf(w.streams[fd]), Requests(w.run, fd))
    {
      match e
      case Accept(x) =>
        DoingLegal(password, v, Connect(x));
        RequestsOn(v.run, Connect(x), fd);
        NoLines();
      case Hangup(x) =>
        if x in v.streams {
          DoingLegal(password, v, Disconnect(x));
          RequestsOn(v.run, Disconnect(x), fd);
        }
      case Byte(x, c) =>
        if x in v.streams {
          LinesOn(v.streams[x], c);
          var line := Completed(v.streams[x], c);
          if line.Some? {
            LineSound(password, v, x, line.value, v.streams[x] + [c]);
            var step := Do(x, Asked(line.value));
            RequestsOn(v.run, step, fd);
            RequestsOn(v.run + [step], Disconnect(x), fd);
          }
        }
    }
  }

  lemma NoLines()
    ensures LinesOf("") == []
  {
  }

  /**
    However the bytes of the clients are interleaved, each connected client did exactly what
    the lines of its own stream ask for, in order.
   */
  lemma {:induction false} OwnCommands(password: string, events: seq<Event>)
    requires AllFine(password, events)
    ensures OwnLines(Arrived(password, events))
  {
    hide Next, Fine;
    if events == [] {
    } else {
      OwnCommands(password, events[..|events| - 1]);
      ArrivedSound(password, events[..|events| - 1]);
      NextOwn(password, Arrived(password, events[..|events| - 1]), events[|events| - 1]);
    }
  }

  /** So a client whose bytes write requests did just these, whatever the others sent in between. */
  lemma OwnMessages(password: string, events: seq<Event>, fd: Fd, ms: seq<Message.Outgoing>, rs: seq<Request>)
    requires AllFine(password, events) && fd in Arrived(password, events).streams
    requires Arrived(password, events).streams[fd] == Service.RenderAll(ms)
    requires |ms| == |rs| && forall i :: 0 <= i < |ms| ==> Message.WellFormed(ms[i]) && Spells(ms[i], rs[i])
    ensures Requests(Arrived(password, events).run, fd) == rs
  {
    hide Message.WellFormed, Spells, Asked, IsCommand, LinesOf, Arrived, AllFine, Requests, Service.RenderAll;
    var stream := Service.RenderAll(ms);
    OwnCommands(password, events);
    OneChunk(stream);
    AskedIsSent(ms, rs, [stream]);
  }

  lemma OneChunk(stream: string)
    ensures Service.Received([stream]) == stream
  {
    assert [stream][1..] == [];
  }

  // ---- the tables and the receive buffers ------------------------------------

  ghost function Buffers(receivers: map<Fd, Service.Client>): set<array<char>> {
    set x | x in receivers :: receivers[x].buffer
  }

  /** Each connected client has a receive buffer of its own, and it holds the line being read. */
  ghost predicate Receiving(receivers: map<Fd, Service.Client>, streams: map<Fd, string>)
    reads receivers.Values, Buffers(receivers)
  {
    && receivers.Keys == streams.Keys
    && (forall x :: x in receivers ==> Holding(receivers[x], streams[x]))
    && forall x, y :: x in receivers && y in receivers && x != y ==>
         receivers[x] != receivers[y] && receivers[x].buffer != receivers[y].buffer
  }

  lemma LineDone(f: Service.Framed, seen: string, c: char, done: bool, command: string)
    requires f == Service.TakeAll(Service.START, seen)
    requires Service.Take(f, c).lines == if done then f.lines + [command] else f.lines
    ensures Completed(seen, c) == if done then Some(command) else None
  {
    hide Service.TakeAll;
    assert done ==> Service.Take(f, c).lines[|f.lines|] == command;
  }

  /** One byte of a client's receive loop: its own buffer takes it, the others stay. */
  method Receive(receivers: map<Fd, Service.Client>, fd: Fd, c: char, ghost streams: map<Fd, string>)
    returns (done: bool, command: string)
    requires Receiving(receivers, streams) && fd in receivers && fd in streams
    requires |Service.Take(Service.TakeAll(Service.START, streams[fd]), c).pending| <= Service.MAX_BUFFER_SIZE
    modifies receivers.Values, Buffers(receivers)
    ensures Receiving(receivers, streams[fd := streams[fd] + [c]]) && |command| <= Service.MAX_BUFFER_SIZE
    ensures Completed(streams[fd], c) == if done then Some(command) else None
  {
    hide Service.TakeAll, Service.Take, Completed;
    ghost var seen := streams[fd];
    Service.TakeOne(Service.START, seen, c);
    done, command := receivers[fd].OnByte(c, Service.TakeAll(Service.START, seen));
    LineDone(Service.TakeAll(Service.START, seen), seen, c, done, command);
  }

  /** A thread starts to receive. */
  method NewReceiver(receivers: map<Fd, Service.Client>, fd: Fd, ghost streams: map<Fd, string>)
    returns (receivers': map<Fd, Service.Client>)
    requires Receiving(receivers, streams) && fd !in receivers
    ensures Receiving(receivers', streams[fd := ""])
    ensures fresh(receivers'.Values - receivers.Values) && fresh(Buffers(receivers') - Buffers(receivers))
  {
    assert allocated(receivers);
    var receiver := new Service.Client();
    NoLines();
    receivers' := receivers[fd := receiver];
  }

  lemma ReceiverGone(receivers: map<Fd, Service.Client>, streams: map<Fd, string>, fd: Fd, seen: string)
    requires Receiving(receivers, streams[fd := seen])
    ensures Receiving(receivers - {fd}, streams - {fd})
    ensures (receivers - {fd}).Values <= receivers.Values && Buffers(receivers - {fd}) <= Buffers(receivers)
  {
    KeysRemove(receivers, streams[fd := seen], fd);
    assert streams[fd := seen] - {fd} == streams - {fd};
  }

  lemma ReceiverSockets(receivers: map<Fd, Service.Client>, password: string, v: Served)
    requires Receiving(receivers, v.streams) && Sound(password, v)
    ensures receivers.Keys == v.streams.Keys == v.state.clients.Keys
    ensures Inv(v.state)
  {
    hide Inv;
    ReachableInv(password, v.run);
  }

  /** A command touches no receive buffer. */
  method CommandKeeping(ctx: Context, u: User, line: string,
                        ghost receivers: map<Fd, Service.Client>, ghost streams: map<Fd, string>)
    returns (closed: bool)
    requires |line| <= Service.MAX_BUFFER_SIZE && ctx.Valid() && ctx.Mine(u) && Inv(ctx.Model())
    requires Acceptable(Open(ctx.Model()), u.clientFd, line) && Receiving(receivers, streams)
    modifies ctx, ctx.clients.Values, ctx.connections.entries.Values, ctx.channels.entries.Values
    ensures ctx.Valid() && Receiving(receivers, streams)
    ensures Run(old(ctx.Model()), u.clientFd, [line]) == if closed then Closed(ctx.Model()) else Open(ctx.Model())
    ensures ctx.clients == if closed then old(ctx.clients) - {u.clientFd} else old(ctx.clients)
    ensures fresh(ctx.channels.entries.Values - old(ctx.channels.entries.Values))
    ensures ctx.connections.entries.Values <= old(ctx.connections.entries.Values)
  {
    hide Context.Valid, Holding, Inv, Acceptable, Run;
    closed := OnCommand(ctx, u, line);
    forall x | x in receivers
      ensures Holding(receivers[x], streams[x])
    {
      assert old(Holding(receivers[x], streams[x]));
    }
  }

  lemma NextByte(password: string, v: Served, fd: Fd, c: char)
    requires Sound(password, v) && Fine(v, Byte(fd, c)) && fd in v.streams
    ensures fd in v.state.clients && Inv(v.state)
    ensures var w, seen := Next(v, Byte(fd, c)), v.streams[fd] + [c];
      match Completed(v.streams[fd], c)
      case None => w == v.(streams := v.streams[fd := seen])
      case Some(line) =>
        && Acceptable(Open(v.state), fd, line) && Run(v.state, fd, [line]).state == w.state
        && w.streams == if Run(v.state, fd, [line]).Closed? then v.streams - {fd} else v.streams[fd := seen]
  {
    hide LegalRun, After, Inv, Run, OnLine, Acceptable, Completed;
    ReachableInv(password, v.run);
    var line := Completed(v.streams[fd], c);
    if line.Some? {
      LineSound(password, v, fd, line.value, v.streams[fd] + [c]);
    }
  }

  /** The line that a byte of a client completed. */
  method OnLineEvent(ctx: Context, threads: map<Fd, User>, receivers: map<Fd, Service.Client>, fd: Fd, line: string,
                     ghost c: char, ghost password: string, ghost v: Served)
    returns (threads': map<Fd, User>, receivers': map<Fd, Service.Client>)
    requires Sound(password, v) && Fine(v, Byte(fd, c)) && fd in v.streams && |line| <= Service.MAX_BUFFER_SIZE
    requires ctx.Valid() && threads == ctx.clients && ctx.Model() == v.state
    requires Completed(v.streams[fd], c) == Some(line)
    requires Receiving(receivers, v.streams[fd := v.streams[fd] + [c]])
    modifies ctx, ctx.clients.Values, ctx.connections.entries.Values, ctx.channels.entries.Values
    ensures ctx.Valid() && threads' == ctx.clients && ctx.Model() == Next(v, Byte(fd, c)).state
    ensures Receiving(receivers', Next(v, Byte(fd, c)).streams)
    ensures receivers'.Values <= receivers.Values && Buffers(receivers') <= Buffers(receivers)
    ensures ctx.clients.Values <= old(ctx.clients.Values)
    ensures ctx.connections.entries.Values <= old(ctx.connections.entries.Values)
    ensures fresh(ctx.channels.entries.Values - old(ctx.channels.entries.Values))
  {
    hide Context.Valid, Receiving, Next, Acceptable, Sound, Fine, Inv, Completed, Run, Buffers;
    NextByte(password, v, fd, c);
    ctx.Threads();
    threads', receivers' := threads, receivers;
    var closed := CommandKeeping(ctx, threads[fd], line, receivers, v.streams[fd := v.streams[fd] + [c]]);
    if closed {
      threads', receivers' := threads - {fd}, receivers - {fd};
      ReceiverGone(receivers, v.streams, fd, v.streams[fd] + [c]);
    }
  }

  /** A byte of a client, as an event of the server. */
  method OnByteEvent(ctx: Context, threads: map<Fd, User>, receivers: map<Fd, Service.Client>, fd: Fd, c: char,
                     ghost password: string, ghost v: Served)
    returns (threads': map<Fd, User>, receivers': map<Fd, Service.Client>)
    requires ctx.Valid() && threads == ctx.clients && ctx.Model() == v.state && Receiving(receivers, v.streams)
    requires Sound(password, v) && Fine(v, Byte(fd, c)) && fd in receivers
    modifies ctx, ctx.clients.Values, ctx.connections.entries.Values, ctx.channels.entries.Values
    modifies receivers.Values, Buffers(receivers)
    ensures ctx.Valid() && threads' == ctx.clients && ctx.Model() == Next(v, Byte(fd, c)).state
    ensures Receiving(receivers', Next(v, Byte(fd, c)).streams)
    ensures receivers'.Values <= receivers.Values && Buffers(receivers') <= Buffers(receivers)
    ensures ctx.clients.Values <= old(ctx.clients.Values)
    ensures ctx.connections.entries.Values <= old(ctx.connections.entries.Values)
    ensures fresh(ctx.channels.entries.Values - old(ctx.channels.entries.Values))
  {
    hide Context.Valid, Receiving, Next, Acceptable, Sound, Inv, Completed, Run;
    ReceiverSockets(receivers, password, v);
    NextByte(password, v, fd, c);
    threads', receivers' := threads, receivers;
    var done, command := Receive(receivers, fd, c, v.streams);
    if done {
      threads', receivers' := OnLineEvent(ctx, threads, receivers, fd, command, c, password, v);
    }
  }

  /** A step of the server touches no receive buffer. */
  method StepKeeping(ctx: Context, threads: map<Fd, User>, step: Step,
                     ghost receivers: map<Fd, Service.Client>, ghost streams: map<Fd, string>)
    returns (threads': map<Fd, User>)
    requires ctx.Valid() && threads == ctx.clients && Inv(ctx.Model()) && Legal(ctx.Model(), step)
    requires Receiving(receivers, streams)
    modifies ctx, ctx.clients.Values, ctx.connections.entries.Values, ctx.channels.entries.Values
    ensures Present(old(ctx.Model()), step) && !Crashes(old(ctx.Model()), step)
    ensures ctx.Valid() && threads' == ctx.clients && ctx.Model() == Take(old(ctx.Model()), step)
    ensures Receiving(receivers, streams)
    ensures fresh(ctx.clients.Values - old(ctx.clients.Values))
    ensures fresh(ctx.connections.entries.Values - old(ctx.connections.entries.Values))
    ensures fresh(ctx.channels.entries.Values - old(ctx.channels.entries.Values))
  {
    hide Context.Valid, Holding, Inv, Legal, Take, Crashes, Present;
    threads' := TakeStep(ctx, threads, step);
    forall x | x in receivers
      ensures Holding(receivers[x], streams[x])
    {
      assert old(Holding(receivers[x], streams[x]));
    }
  }

  method OnAccept(ctx: Context, threads: map<Fd, User>, receivers: map<Fd, Service.Client>, fd: Fd,
                  ghost password: string, ghost v: Served)
    returns (threads': map<Fd, User>, receivers': map<Fd, Service.Client>)
    requires ctx.Valid() && threads == ctx.clients && ctx.Model() == v.state && Receiving(receivers, v.streams)
    requires Sound(password, v) && Fine(v, Accept(fd))
    modifies ctx, ctx.clients.Values, ctx.connections.entries.Values, ctx.channels.entries.Values
    ensures ctx.Valid() && threads' == ctx.clients && ctx.Model() == Next(v, Accept(fd)).state
    ensures Receiving(receivers', Next(v, Accept(fd)).streams)
    ensures fresh(receivers'.Values - receivers.Values) && fresh(Buffers(receivers') - Buffers(receivers))
    ensures fresh(ctx.clients.Values - old(ctx.clients.Values))
    ensures fresh(ctx.connections.entries.Values - old(ctx.connections.entries.Values))
    ensures fresh(ctx.channels.entries.Values - old(ctx.channels.entries.Values))
  {
    hide Context.Valid, Receiving, LegalRun, After, Inv, Take;
    ReceiverSockets(receivers, password, v);
    DoingLegal(password, v, Connect(fd));
    threads' := StepKeeping(ctx, threads, Connect(fd), receivers, v.streams);
    receivers' := NewReceiver(receivers, fd, v.streams);
  }

  method OnHangup(ctx: Context, threads: map<Fd, User>, receivers: map<Fd, Service.Client>, fd: Fd,
                  ghost password: string, ghost v: Served)
    returns (threads': map<Fd, User>, receivers': map<Fd, Service.Client>)
    requires ctx.Valid() && threads == ctx.clients && ctx.Model() == v.state && Receiving(receivers, v.streams)
    requires Sound(password, v) && Fine(v, Hangup(fd)) && fd in v.streams
    modifies ctx, ctx.clients.Values, ctx.connections.entries.Values, ctx.channels.entries.Values
    ensures ctx.Valid() && threads' == ctx.clients && ctx.Model() == Next(v, Hangup(fd)).state
    ensures Receiving(receivers', Next(v, Hangup(fd)).streams)
    ensures receivers'.Values <= receivers.Values && Buffers(receivers') <= Buffers(receivers)
    ensures fresh(ctx.clients.Values - old(ctx.clients.Values))
    ensures fresh(ctx.connections.entries.Values - old(ctx.connections.entries.Values))
    ensures fresh(ctx.channels.entries.Values - old(ctx.channels.entries.Values))
  {
    hide Context.Valid, Receiving, LegalRun, After, Inv, Take, Buffers;
    ReceiverSockets(receivers, password, v);
    DoingLegal(password, v, Disconnect(fd));
    threads' := StepKeeping(ctx, threads, Disconnect(fd), receivers, v.streams);
    receivers' := receivers - {fd};
    assert v.streams[fd := v.streams[fd]] == v.streams;
    ReceiverGone(receivers, v.streams, fd, v.streams[fd]);
  }

  /** One event: the tables and the receive buffers follow. */
  method OnEvent(ctx: Context, threads: map<Fd, User>, receivers: map<Fd, Service.Client>, e: Event,
                 ghost password: string, ghost v: Served)
    returns (threads': map<Fd, User>, receivers': map<Fd, Service.Client>)
    requires ctx.Valid() && threads == ctx.clients && ctx.Model() == v.state && Receiving(receivers, v.streams)
    requires Sound(password, v) && Fine(v, e)
    modifies ctx, ctx.clients.Values, ctx.connections.entries.Values, ctx.channels.entries.Values
    modifies receivers.Values, Buffers(receivers)
    ensures ctx.Valid() && threads' == ctx.clients && ctx.Model() == Next(v, e).state
    ensures Receiving(receivers', Next(v, e).streams)
    ensures fresh(receivers'.Values - receivers.Values) && fresh(Buffers(receivers') - Buffers(receivers))
    ensures fresh(ctx.clients.Values - old(ctx.clients.Values))
    ensures fresh(ctx.connections.entries.Values - old(ctx.connections.entries.Values))
    ensures fresh(ctx.channels.entries.Values - old(ctx.channels.entries.Values))
  {
    hide Context.Valid, Receiving, Sound, Fine, Inv, Buffers;
    ReceiverSockets(receivers, password, v);
    match e {
      case Accept(fd) =>
        threads', receivers' := OnAccept(ctx, threads, receivers, fd, password, v);
      case Hangup(fd) =>
        if fd in receivers {
          threads', receivers' := OnHangup(ctx, threads, receivers, fd, password, v);
        } else {
          threads', receivers' := threads, receivers;
        }
      case Byte(fd, c) =>
        if fd in receivers {
          threads', receivers' := OnByteEvent(ctx, threads, receivers, fd, c, password, v);
        } else {
          threads', receivers' := threads, receivers;
        }
    }
  }

  /**
    The server from the start: whatever its clients send, and however their threads take turns,
    the tables stand for the state that the steps taken lead to.
   */
  method ServeAll(password: string, events: seq<Event>) returns (ctx: Context)
    requires AllFine(password, events)
    ensures fresh(ctx) && ctx.Valid() && LegalRun(password, Arrived(password, events).run)
    ensures ctx.Model() == After(password, Arrived(password, events).run)
  {
    hide Context.Valid, Receiving, Next, Fine, LegalRun, After;
    ctx := new Context(password);
    var threads: map<Fd, User>, receivers: map<Fd, Service.Client> := map[], map[];
    NobodyThere(receivers);
    for i := 0 to |events|
      invariant fresh(ctx) && fresh(ctx.clients.Values) && fresh(ctx.connections.entries.Values)
      invariant fresh(ctx.channels.entries.Values)
      invariant fresh(receivers.Values) && fresh(Buffers(receivers))
      invariant ctx.Valid() && threads == ctx.clients && ctx.Model() == Arrived(password, events[..i]).state
      invariant Receiving(receivers, Arrived(password, events[..i]).streams)
    {
      FinePrefix(password, events, i);
      ArrivedSound(password, events[..i]);
      threads, receivers := OnEvent(ctx, threads, receivers, events[i], password, Arrived(password, events[..i]));
    }
    assert events[..|events|] == events;
    ArrivedSound(password, events);
  }

  lemma NobodyThere(receivers: map<Fd, Service.Client>)
    requires receivers == map[]
    ensures Receiving(receivers, map[])
  {
  }

  lemma {:induction false} FinePrefix(password: string, events: seq<Event>, i: nat)
    requires AllFine(password, events) && i < |events|
    ensures AllFine(password, events[..i]) && Fine(Arrived(password, events[..i]), events[i])
    ensures Arrived(password, events[..i + 1]) == Next(Arrived(password, events[..i]), events[i])
    decreases |events|
  {
    hide Fine, Next;
    var before := events[..|events| - 1];
    assert events[..i + 1][..i] == events[..i];
    if i < |events| - 1 {
      FinePrefix(password, before, i);
      assert before[..i] == events[..i];
    } else {
      assert events[..i] == before;
    }
  }
}
