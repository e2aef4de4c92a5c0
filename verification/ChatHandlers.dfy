/** The command handlers: each does to the tables what its function does to the state. */
module ChatHandlers {
  import opened Optional
  import opened ChatState
  import opened ChatInvariant
  import opened ChatRefinement
  import opened ChatObjects
  import opened ChatLoops
  import opened ChatContext

  const NOTREGISTERED := 4
  const INSUFFICIENT := 2

  /** The requests whose handlers fail; process_cmd then closes the client. */
  predicate Fails(s: State, fd: Fd, request: Request)
    requires fd in s.clients
  {
    match request
    case NICK(params) => |params| >= 1 && params[0] == ""
    case JOIN(params) => s.clients[fd].registered && |params| >= 1 && params[0] == ""
    case _ => false
  }

  /** check_registered. */
  method CheckRegistered(ctx: Context, u: User) returns (ok: bool)
    requires ctx.Valid() && ctx.Mine(u)
    modifies ctx`records, u`outbox
    ensures ctx.Valid() && u.clientFd in old(ctx.Model()).clients
    ensures ok == old(ctx.Model()).clients[u.clientFd].registered
    ensures ctx.Model() == if ok then old(ctx.Model())
      else Send(old(ctx.Model()), u.clientFd, Numeric(Label(old(ctx.Model()).clients[u.clientFd]), NotRegistered))
  {
    ctx.ClientOf(u);
    ok := u.registered;
    if !ok {
      var nick := if u.nick.Some? then u.nick.value else "*";
      var sent := ctx.SendReply(u, Numeric(nick, NotRegistered));
    }
  }

  /** check_insufficient_param: the reply names the client, which must have a nick then. */
  method CheckParams(ctx: Context, u: User, have: nat, target: nat, cmd: string) returns (ok: bool)
    requires ctx.Valid() && ctx.Mine(u) && (have < target ==> u.nick.Some?)
    modifies ctx`records, u`outbox
    ensures ctx.Valid() && u.clientFd in old(ctx.Model()).clients
    ensures ok == (have >= target)
    ensures ctx.Model() == if ok then old(ctx.Model())
      else Send(old(ctx.Model()), u.clientFd, Numeric(old(u.nick).value, NeedMoreParams(cmd)))
  {
    ctx.ClientOf(u);
    ok := have >= target;
    if !ok {
      var sent := ctx.SendReply(u, Numeric(u.nick.value, NeedMoreParams(cmd)));
    }
  }

  /** handler_LUSERS of a registered user. */
  method SendLusers(ctx: Context, u: User)
    requires ctx.Valid() && ctx.Mine(u) && u.nick.Some?
    modifies ctx`records, u`outbox
    ensures ctx.Valid() && u.clientFd in old(ctx.Model()).clients
    ensures ctx.Model() == Send(old(ctx.Model()), u.clientFd, Numeric(old(u.nick).value, LusersReply(old(ctx.Model()))))
  {
    hide Context.Valid, Count;
    ctx.ClientOf(u);
    var count := ctx.CountConnectionState();
    var channels := ctx.ChannelCount();
    var sent := ctx.SendReply(u, Numeric(u.nick.value, Lusers(count[2], ctx.ircOpNum, count[0], channels, count[1])));
  }

  /** The ends of handler_NICK and handler_USER for a client not registered before. */
  method Register(ctx: Context, u: User)
    requires ctx.Valid() && ctx.Mine(u)
    modifies ctx`records, u`registered, u`outbox, ctx.connections.entries.Values`state
    ensures ctx.Valid() && u.clientFd in old(ctx.Model()).clients
    ensures ctx.Model() == TryRegister(old(ctx.Model()), u.clientFd)
  {
    hide Context.Valid;
    ctx.ClientOf(u);
    if u.CanRegister() {
      ghost var s, fd := ctx.Model(), u.clientFd;
      ctx.SetRegistered(u);
      var rv := ctx.ModifyConnectionState(u.clientFd, RegisteredConn);
      var sent := ctx.SendReply(u, Welcome(u.nick.value));
      ghost var c := s.clients[fd];
      var c' := Put(Advance(c.(registered := true), RegisteredConn), Welcome(c.nick.value));
      assert ctx.Model().clients == s.clients[fd := c'];
      SendLusers(ctx, u);
    } else {
      var rv := ctx.ModifyConnectionState(u.clientFd, UserConn);
    }
  }

  method HandlerNICK(ctx: Context, u: User, params: seq<string>) returns (rv: int)
    requires ctx.Valid() && ctx.Mine(u) && Inv(ctx.Model())
    requires u.clientFd in ctx.Model().clients && !ReentersNick(ctx.Model(), u.clientFd, params)
    modifies ctx`users, ctx`userIds, ctx`records, ctx`rooms
    modifies ctx.clients.Values, ctx.connections.entries.Values, ctx.channels.entries.Values
    ensures ctx.Valid()
    ensures ctx.Model() == HandleNick(old(ctx.Model()), u.clientFd, params)
    ensures (rv == FAILURE) == Fails(old(ctx.Model()), u.clientFd, NICK(params))
  {
    hide Context.Valid, Inv, TryRegister, Rename;
    ghost var s := ctx.Model();
    ctx.ClientOf(u);
    RegisteredHasNick(s, u.clientFd);
    var nick := if u.nick.Some? then u.nick.value else "*";
    if |params| < 1 {
      rv := ctx.SendReply(u, Numeric(nick, NoNickGiven));
      return;
    }
    if u.registered {
      rv := RenameUser(ctx, u, params[0]);
    } else {
      rv := ctx.AddUserNick(params[0], u);
      if rv == NICK_IN_USE {
        rv := ctx.SendReply(u, Numeric(nick, NickInUse(params[0])));
      } else if rv == SUCCESS {
        Register(ctx, u);
      }
    }
  }

  lemma RegisteredHasNick(s: State, fd: Fd)
    requires Inv(s) && fd in s.clients
    ensures s.clients[fd].registered ==> s.clients[fd].nick.Some?
    ensures "" !in s.users && "" !in s.channels
    ensures s.clients[fd].nick.Some? ==> s.clients[fd].nick.value != ""
    ensures NicksOk(s.users, s.clients)
  {
    assert ClientOk(s.clients[fd]);
  }

  /** handler_NICK of a registered user. */
  method RenameUser(ctx: Context, u: User, now: Nick) returns (rv: int)
    requires ctx.Valid() && ctx.Mine(u) && Inv(ctx.Model()) && u.registered && u.nick.Some?
    modifies ctx`users, ctx`userIds, ctx`records, ctx`rooms, ctx.clients.Values, ctx.channels.entries.Values
    ensures ctx.Valid()
    ensures u.clientFd in old(ctx.records)
    ensures (rv == FAILURE) == (now == "")
    ensures var s := old(ctx.Model());
      ctx.Model() == if now == "" then s
                     else if now in s.users then Send(s, u.clientFd, Numeric(old(u.nick).value, NickInUse(now)))
                     else Rename(s, u.clientFd, old(u.nick).value, now)
  {
    hide Context.Valid, Inv, Rename, Relabelled, ChannelsOn, NotifyEach, Notify;
    ghost var s, fd := ctx.Model(), u.clientFd;
    ctx.ClientOf(u);
    var was := u.nick.value;
    ctx.ChannelOrder();
    var arr, count;
    rv, arr, count := ctx.UpdateUserNick(now, u);
    if rv == NICK_IN_USE {
      rv := ctx.SendReply(u, Numeric(was, NickInUse(now)));
      return;
    }
    if rv == FAILURE {
      return;
    }
    ghost var t, names := ctx.Model(), ChannelsOn(ctx.channels.order, s.channels, was);
    RenamedNames(s, fd, was, now, ctx.channels.order);
    NothingNotified(t, Renamed(was, now));
    for i := 0 to count
      invariant ctx.Valid() && ctx.Lists(arr, count, names)
      invariant ctx.Model() == NotifyEach(t, names[..i], Renamed(was, now))
    {
      NotifyEachStep(t, names, i, Renamed(was, now));
      ctx.NameOf(arr[i], names[i]);
      var sent := ctx.NotifyAllChannelMembers(arr[i], Renamed(was, now), None);
    }
    assert names[..count] == names;
    NotifyEachIsRename(s, fd, was, now, names);
    rv := SUCCESS;
  }

  method HandlerUSER(ctx: Context, u: User, params: seq<string>) returns (rv: int)
    requires ctx.Valid() && ctx.Mine(u) && !Crashes(ctx.Model(), Do(u.clientFd, USER(params)))
    modifies ctx`records, u, ctx.connections.entries.Values`state
    ensures u.clientFd in old(ctx.Model()).clients
    ensures ctx.Model() == HandleUser(old(ctx.Model()), u.clientFd, params)
    ensures ctx.Valid() && rv == SUCCESS
  {
    hide Context.Valid, TryRegister;
    ctx.ClientOf(u);
    if u.registered {
      rv := ctx.SendReply(u, Numeric(u.nick.value, AlreadyRegistered));
      return;
    }
    var ok := CheckParams(ctx, u, |params|, 4, "USER");
    if ok {
      ctx.SetUsername(u, params[0]);
      Register(ctx, u);
    }
    rv := SUCCESS;
  }

  /** Creating a channel and then filling it is one change of the table. */
  lemma Founded(channels: map<Name, map<Nick, bool>>, name: Name, members: map<Nick, bool>)
    ensures channels[name := map[]][name := members] == channels[name := members]
  {
  }

  /** The part of handler_JOIN that has the channel. */
  method JoinFound(ctx: Context, u: User, channel: Channel, nick: Nick, isCreator: bool) returns (rv: int)
    requires ctx.Valid() && ctx.Mine(u) && NicksOk(ctx.userIds, ctx.records) && nick != ""
    requires ctx.Holds(channel, channel.name)
    modifies ctx`records, ctx`rooms, ctx.clients.Values`outbox, channel`members
    ensures ctx.Valid() && rv == SUCCESS && u.clientFd in old(ctx.Model()).clients && channel.name in old(ctx.rooms)
    ensures var s, name := old(ctx.Model()), channel.name;
      var joined := s.channels[name][nick := isCreator];
      ctx.Model() == if nick in s.channels[name] then s
        else Send(Notify(s.(channels := s.channels[name := joined]), joined, None, Joined(nick, name)),
                  u.clientFd, Numeric(nick, Names(name)))
  {
    hide Context.Valid, NicksOk, Notify;
    ctx.ClientOf(u);
    rv := ctx.JoinChannel(channel, nick, isCreator);
    if rv == 1 {
      return SUCCESS;
    }
    rv := ctx.NotifyAllChannelMembers(channel, Joined(nick, channel.name), None);
    rv := ctx.SendReply(u, Numeric(nick, Names(channel.name)));
  }

  /** handler_JOIN of a registered user. */
  method JoinRegistered(ctx: Context, u: User, params: seq<string>) returns (rv: int)
    requires ctx.Valid() && ctx.Mine(u) && NicksOk(ctx.userIds, ctx.records) && u.nick.Some? && u.nick.value != ""
    modifies ctx`channels, ctx`records, ctx`rooms, ctx.clients.Values, ctx.channels.entries.Values
    ensures ctx.Valid() && fresh(ctx.channels.entries.Values - old(ctx.channels.entries.Values))
    ensures u.clientFd in old(ctx.Model()).clients
    ensures ctx.Model() == HandleJoin(old(ctx.Model()), u.clientFd, old(u.nick).value, params)
    ensures (rv == FAILURE) == (|params| >= 1 && params[0] == "")
  {
    hide Context.Valid, NicksOk, Notify;
    ghost var s := ctx.Model();
    ctx.ClientOf(u);
    var ok := CheckParams(ctx, u, |params|, 1, "JOIN");
    if !ok {
      return INSUFFICIENT;
    }
    var nick, name := u.nick.value, params[0];
    var channel, isCreator := ctx.TryGetChannel(name);
    if channel == null {
      return FAILURE;
    }
    ctx.NameOf(channel, name);
    Founded(s.channels, name, ctx.rooms[name][nick := isCreator]);
    rv := JoinFound(ctx, u, channel, nick, isCreator);
  }

  method HandlerJOIN(ctx: Context, u: User, params: seq<string>) returns (rv: int)
    requires ctx.Valid() && ctx.Mine(u) && Inv(ctx.Model())
    modifies ctx`channels, ctx`records, ctx`rooms, ctx.clients.Values, ctx.channels.entries.Values
    ensures u.clientFd in old(ctx.Model()).clients
    ensures ctx.Model() == Handle(old(ctx.Model()), u.clientFd, JOIN(params))
    ensures (rv == FAILURE) == Fails(old(ctx.Model()), u.clientFd, JOIN(params))
    ensures ctx.Valid() && fresh(ctx.channels.entries.Values - old(ctx.channels.entries.Values))
  {
    hide Context.Valid, Inv, NicksOk, HandleJoin;
    ctx.ClientOf(u);
    RegisteredHasNick(ctx.Model(), u.clientFd);
    var ok := CheckRegistered(ctx, u);
    if !ok {
      return NOTREGISTERED;
    }
    rv := JoinRegistered(ctx, u, params);
  }

  /** The part of handler_PART after the user left: it and those who stay are told, an empty channel goes. */
  method TellParted(ctx: Context, u: User, channel: Channel, r: Reply, wasLast: bool)
    requires ctx.Valid() && ctx.Mine(u) && NicksOk(ctx.userIds, ctx.records) && ctx.Holds(channel, channel.name)
    modifies ctx`records, ctx`channels, ctx`rooms, ctx.clients.Values`outbox
    ensures ctx.Valid() && u.clientFd in old(ctx.Model()).clients && channel.name in old(ctx.rooms)
    ensures ctx.channels.entries.Values <= old(ctx.channels.entries.Values)
    ensures var s1 := Send(old(ctx.Model()), u.clientFd, r);
      ctx.Model() == if wasLast then s1.(channels := s1.channels - {channel.name})
                     else Notify(s1, s1.channels[channel.name], None, r)
  {
    hide Context.Valid, NicksOk, Notify;
    ghost var s := ctx.Model();
    ctx.ClientOf(u);
    ctx.NameOf(channel, channel.name);
    var sent := ctx.SendReply(u, r);
    NicksDependOnNicks(s.users, s.clients, ctx.records);
    if wasLast {
      ctx.DeleteChannel(channel);
    } else {
      sent := ctx.NotifyAllChannelMembers(channel, r, None);
    }
  }

  /** handler_PART of a registered user. */
  method PartRegistered(ctx: Context, u: User, params: seq<string>, longlast: bool) returns (rv: int)
    requires ctx.Valid() && ctx.Mine(u) && NicksOk(ctx.userIds, ctx.records) && "" !in ctx.rooms
    requires u.nick.Some? && u.nick.value != "" && !PartLacksFarewell(ctx.Model(), u.nick.value, params, longlast)
    modifies ctx`channels, ctx`records, ctx`rooms, ctx.clients.Values, ctx.channels.entries.Values
    ensures ctx.Valid() && fresh(ctx.channels.entries.Values - old(ctx.channels.entries.Values))
    ensures u.clientFd in old(ctx.Model()).clients
    ensures ctx.Model() == HandlePart(old(ctx.Model()), u.clientFd, old(u.nick).value, params, longlast)
    ensures rv != FAILURE
  {
    hide Context.Valid, NicksOk, Notify;
    ghost var s := ctx.Model();
    ctx.ClientOf(u);
    var ok := CheckParams(ctx, u, |params|, 1, "PART");
    if !ok {
      return INSUFFICIENT;
    }
    var nick, name := u.nick.value, params[0];
    var channel := ctx.GetChannel(name);
    if channel == null {
      rv := ctx.SendReply(u, Numeric(nick, NoSuchChannel(name)));
      return;
    }
    ctx.NameOf(channel, name);
    rv := ctx.LeaveChannel(channel, nick);
    if rv == 1 {
      rv := ctx.SendReply(u, Numeric(nick, NotOnChannel(name)));
      return;
    }
    ghost var rest := s.channels[name] - {nick};
    assert rv == 2 ==> s.channels[name := rest] - {name} == s.channels - {name};
    var reply := Parted(nick, name, if longlast then Some(params[1]) else None);
    TellParted(ctx, u, channel, reply, rv == 2);
    rv := SUCCESS;
  }

  method HandlerPART(ctx: Context, u: User, params: seq<string>, longlast: bool) returns (rv: int)
    requires ctx.Valid() && ctx.Mine(u) && Inv(ctx.Model())
    requires !Crashes(ctx.Model(), Do(u.clientFd, PART(params, longlast)))
    modifies ctx`channels, ctx`records, ctx`rooms, ctx.clients.Values, ctx.channels.entries.Values
    ensures u.clientFd in old(ctx.Model()).clients
    ensures ctx.Model() == Handle(old(ctx.Model()), u.clientFd, PART(params, longlast)) && rv != FAILURE
    ensures ctx.Valid() && fresh(ctx.channels.entries.Values - old(ctx.channels.entries.Values))
  {
    hide Context.Valid, Inv, NicksOk, HandlePart;
    ctx.ClientOf(u);
    RegisteredHasNick(ctx.Model(), u.clientFd);
    var ok := CheckRegistered(ctx, u);
    if !ok {
      return NOTREGISTERED;
    }
    rv := PartRegistered(ctx, u, params, longlast);
  }

  /** handler_MODE of a registered user. */
  method ModeRegistered(ctx: Context, u: User, params: seq<string>) returns (rv: int)
    requires ctx.Valid() && ctx.Mine(u) && Inv(ctx.Model()) && u.nick.Some?
    modifies ctx`records, ctx`rooms, ctx.clients.Values, ctx.channels.entries.Values
    ensures ctx.Valid() && u.clientFd in old(ctx.Model()).clients
    ensures ctx.Model() == HandleMode(old(ctx.Model()), u.clientFd, old(u.nick).value, params) && rv != FAILURE
  {
    hide Context.Valid, Inv, NicksOk, Notify;
    ghost var s := ctx.Model();
    ctx.ClientOf(u);
    RegisteredHasNick(s, u.clientFd);
    var ok := CheckParams(ctx, u, |params|, 3, "MODE");
    if !ok {
      return INSUFFICIENT;
    }
    var nick, name, mode, target := u.nick.value, params[0], params[1], params[2];
    var channel := ctx.GetChannel(name);
    if channel == null {
      rv := ctx.SendReply(u, Numeric(nick, NoSuchChannel(name)));
      return;
    }
    ctx.NameOf(channel, name);
    if mode != "-o" && mode != "+o" {
      rv := ctx.SendReply(u, Numeric(nick, UnknownMode(mode)));
      return;
    }
    if !channel.AlreadyOn(target) {
      rv := ctx.SendReply(u, Numeric(nick, UserNotInChannel(target, name)));
      return;
    }
    if u.isIrcOperator || channel.IsOperator(nick) {
      MemberHasNick(s, name, target);
      rv := ctx.UpdateMemberMode(channel, target, mode);
      rv := ctx.NotifyAllChannelMembers(channel, ModeSet(nick, name, mode, target), None);
    } else {
      rv := ctx.SendReply(u, Numeric(nick, ChanOpNeeded(name)));
    }
  }

  method HandlerMODE(ctx: Context, u: User, params: seq<string>) returns (rv: int)
    requires ctx.Valid() && ctx.Mine(u) && Inv(ctx.Model())
    modifies ctx`records, ctx`rooms, ctx.clients.Values, ctx.channels.entries.Values
    ensures ctx.Valid()
    ensures u.clientFd in old(ctx.Model()).clients
    ensures ctx.Model() == Handle(old(ctx.Model()), u.clientFd, MODE(params)) && rv != FAILURE
  {
    hide Context.Valid, Inv, NicksOk, HandleMode;
    ctx.ClientOf(u);
    RegisteredHasNick(ctx.Model(), u.clientFd);
    var ok := CheckRegistered(ctx, u);
    if !ok {
      return NOTREGISTERED;
    }
    rv := ModeRegistered(ctx, u, params);
  }

  lemma MemberHasNick(s: State, name: Name, nick: Nick)
    requires Inv(s) && name in s.channels && nick in s.channels[name]
    ensures nick != ""
  {
    assert nick in s.users;
  }

  method HandlerOPER(ctx: Context, u: User, params: seq<string>) returns (rv: int)
    requires ctx.Valid() && ctx.Mine(u) && Inv(ctx.Model())
    modifies ctx`ircOpNum, ctx`records, u
    ensures ctx.Valid() && u.clientFd in old(ctx.Model()).clients
    ensures ctx.Model() == Handle(old(ctx.Model()), u.clientFd, OPER(params)) && rv != FAILURE
  {
    hide Context.Valid, Inv;
    ctx.ClientOf(u);
    RegisteredHasNick(ctx.Model(), u.clientFd);
    var ok := CheckRegistered(ctx, u);
    if !ok {
      return NOTREGISTERED;
    }
    ok := CheckParams(ctx, u, |params|, 2, "OPER");
    if !ok {
      return INSUFFICIENT;
    }
    var nick := u.nick.value;
    if ctx.password != params[1] {
      rv := ctx.SendReply(u, Numeric(nick, PasswordMismatch));
      return;
    }
    ctx.SetOperator(u);
    ctx.IncreaseOpNum();
    rv := ctx.SendReply(u, Numeric(nick, YouAreOper));
  }

  method HandlerPRIVMSG(ctx: Context, u: User, params: seq<string>, longlast: bool) returns (rv: int)
    requires ctx.Valid() && ctx.Mine(u) && Inv(ctx.Model())
    modifies ctx`records, ctx.clients.Values
    ensures ctx.Valid() && u.clientFd in old(ctx.Model()).clients
    ensures ctx.Model() == Handle(old(ctx.Model()), u.clientFd, PRIVMSG(params, longlast)) && rv != FAILURE
  {
    hide Context.Valid, Inv, Notify;
    ghost var s := ctx.Model();
    ctx.ClientOf(u);
    RegisteredHasNick(s, u.clientFd);
    var ok := CheckRegistered(ctx, u);
    if !ok {
      return NOTREGISTERED;
    }
    var nick := u.nick.value;
    if |params| < 1 {
      rv := ctx.SendReply(u, Numeric(nick, NoRecipient));
      return;
    }
    if !longlast {
      rv := ctx.SendReply(u, Numeric(nick, NoTextToSend));
      return;
    }
    var target := params[0];
    var reply := Said(nick, target, params[|params| - 1]);
    if IsUserTarget(target) {
      var user := ctx.GetUser(target);
      if user == null {
        rv := ctx.SendReply(u, Numeric(nick, NoSuchNick(target)));
      } else {
        ctx.ClientOf(user);
        rv := ctx.SendReply(user, reply);
      }
      return;
    }
    var channel := ctx.GetChannel(target);
    if channel == null {
      rv := ctx.SendReply(u, Numeric(nick, NoSuchNick(target)));
      return;
    }
    ctx.NameOf(channel, target);
    if !channel.AlreadyOn(nick) {
      rv := ctx.SendReply(u, Numeric(nick, CannotSend(target)));
      return;
    }
    rv := ctx.NotifyAllChannelMembers(channel, reply, Some(nick));
  }

  method HandlerLUSERS(ctx: Context, u: User) returns (rv: int)
    requires ctx.Valid() && ctx.Mine(u) && Inv(ctx.Model())
    modifies ctx`records, u`outbox
    ensures ctx.Valid() && u.clientFd in old(ctx.Model()).clients
    ensures ctx.Model() == Handle(old(ctx.Model()), u.clientFd, LUSERS) && rv != FAILURE
  {
    hide Context.Valid, Inv, LusersReply;
    ctx.ClientOf(u);
    RegisteredHasNick(ctx.Model(), u.clientFd);
    var ok := CheckRegistered(ctx, u);
    if !ok {
      return NOTREGISTERED;
    }
    SendLusers(ctx, u);
    rv := SUCCESS;
  }

  /** process_cmd, on the commands modelled: the tables take the step. */
  method ProcessCmd(ctx: Context, u: User, request: Request) returns (rv: int)
    requires ctx.Valid() && ctx.Mine(u) && Inv(ctx.Model()) && Legal(ctx.Model(), Do(u.clientFd, request))
    modifies ctx`users, ctx`userIds, ctx`records, ctx`rooms, ctx`channels, ctx`ircOpNum
    modifies ctx.clients.Values, ctx.connections.entries.Values, ctx.channels.entries.Values
    ensures ctx.Valid() && fresh(ctx.channels.entries.Values - old(ctx.channels.entries.Values))
    ensures u.clientFd in old(ctx.Model()).clients
    ensures ctx.Model() == Take(old(ctx.Model()), Do(u.clientFd, request)) && Inv(ctx.Model())
    ensures (rv == FAILURE) == Fails(old(ctx.Model()), u.clientFd, request)
  {
    hide Context.Valid, Inv, HandleNick, HandleUser, HandleRegistered;
    ghost var s := ctx.Model();
    TakeInv(s, Do(u.clientFd, request));
    match request {
      case NICK(params) => rv := HandlerNICK(ctx, u, params);
      case USER(params) => rv := HandlerUSER(ctx, u, params);
      case JOIN(params) => rv := HandlerJOIN(ctx, u, params);
      case PART(params, longlast) => rv := HandlerPART(ctx, u, params, longlast);
      case MODE(params) => rv := HandlerMODE(ctx, u, params);
      case OPER(params) => rv := HandlerOPER(ctx, u, params);
      case PRIVMSG(params, longlast) => rv := HandlerPRIVMSG(ctx, u, params, longlast);
      case LUSERS => rv := HandlerLUSERS(ctx, u);
    }
  }

  // ---- whole runs ------------------------------------------------------------

  lemma {:induction false} LegalPrefix(password: string, run: seq<Step>, i: nat)
    requires LegalRun(password, run) && i < |run|
    ensures Legal(After(password, run[..i]), run[i]) && LegalRun(password, run[..i])
    ensures Present(After(password, run[..i]), run[i]) && !Crashes(After(password, run[..i]), run[i])
    ensures After(password, run[..i + 1]) == Take(After(password, run[..i]), run[i])
    decreases |run|
  {
    hide Take, Legal;
    var before := run[..|run| - 1];
    LegalIsPresent(After(password, run[..i]), run[i]);
    assert run[..i + 1][..i] == run[..i];
    if i < |run| - 1 {
      LegalPrefix(password, before, i);
      assert before[..i] == run[..i] && before[..i + 1] == run[..i + 1];
    } else {
      assert run[..i] == before;
    }
  }

  /** The server through a whole run, each client's thread holding its own record. */
  method Serve(password: string, run: seq<Step>) returns (ctx: Context)
    requires LegalRun(password, run)
    ensures fresh(ctx) && ctx.Valid() && ctx.Model() == After(password, run)
  {
    hide Context.Valid, Inv, Legal, Take;
    ctx := new Context(password);
    var threads: map<Fd, User> := map[];
    for i := 0 to |run|
      invariant fresh(ctx) && fresh(ctx.clients.Values) && fresh(ctx.connections.entries.Values)
      invariant fresh(ctx.channels.entries.Values)
      invariant ctx.Valid() && threads == ctx.clients && ctx.Model() == After(password, run[..i])
    {
      LegalPrefix(password, run, i);
      ReachableInv(password, run[..i]);
      threads := TakeStep(ctx, threads, run[i]);
    }
    assert run[..|run|] == run;
  }

  method TakeStep(ctx: Context, threads: map<Fd, User>, step: Step) returns (threads': map<Fd, User>)
    requires ctx.Valid() && threads == ctx.clients && Inv(ctx.Model()) && Legal(ctx.Model(), step)
    modifies ctx, ctx.clients.Values, ctx.connections.entries.Values, ctx.channels.entries.Values
    ensures ctx.Valid() && threads' == ctx.clients
    ensures Present(old(ctx.Model()), step) && !Crashes(old(ctx.Model()), step)
    ensures ctx.Model() == Take(old(ctx.Model()), step)
    ensures fresh(ctx.clients.Values - old(ctx.clients.Values))
    ensures fresh(ctx.connections.entries.Values - old(ctx.connections.entries.Values))
    ensures fresh(ctx.channels.entries.Values - old(ctx.channels.entries.Values))
  {
    hide Context.Valid, Inv, Handle, NicksOk;
    ctx.Threads();
    threads' := threads;
    match step {
      case Connect(fd) =>
        var u := ctx.Connect(fd);
        threads' := threads[fd := u];
      case Disconnect(fd) =>
        var u := threads[fd];
        ctx.ClientOf(u);
        RegisteredHasNick(ctx.Model(), fd);
        ctx.FreeData(u);
        threads' := threads - {fd};
      case Do(fd, request) =>
        var rv := ProcessCmd(ctx, threads[fd], request);
    }
  }
}
