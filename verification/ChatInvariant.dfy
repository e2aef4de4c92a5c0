/** What every reachable server state keeps. */
module ChatInvariant {
  import opened Optional
  import opened ChatState

  /** The user table and the user records agree: each key is its user's current nick. */
  ghost predicate NicksOk(users: map<Nick, Fd>, clients: map<Fd, Client>) {
    && (forall n :: n in users ==> n != "" && users[n] in clients && clients[users[n]].nick == Some(n))
    && (forall x :: x in clients && clients[x].nick.Some? ==>
          clients[x].nick.value in users && users[clients[x].nick.value] == x)
  }

  /** Every channel has a name and members, and every member nick is a registered user's. */
  ghost predicate MembersOk(users: map<Nick, Fd>, clients: map<Fd, Client>, channels: map<Name, map<Nick, bool>>) {
    && (forall c :: c in channels ==> c != "" && channels[c] != map[])
    && (forall c, n :: c in channels && n in channels[c] ==>
          n in users && users[n] in clients && clients[users[n]].registered)
  }

  /** The places of the welcomes among these replies. */
  function WelcomesAt(rs: seq<Reply>): set<int> {
    set i | 0 <= i < |rs| && rs[i].Welcome?
  }

  function Welcomes(rs: seq<Reply>): nat {
    |WelcomesAt(rs)|
  }

  /** Registered exactly with both names, the connection state in step, welcomed once. */
  ghost predicate ClientOk(c: Client) {
    && (c.registered <==> c.nick.Some? && c.username.Some?)
    && c.conn == (if c.registered then RegisteredConn
                  else if c.nick.Some? || c.username.Some? then UserConn else UnknownConn)
    && Welcomes(c.outbox) == (if c.registered then 1 else 0)
    && (c.oper ==> c.registered)
  }

  ghost predicate ClientsOk(clients: map<Fd, Client>) {
    forall x :: x in clients ==> ClientOk(clients[x])
  }

  ghost predicate Inv(s: State) {
    NicksOk(s.users, s.clients) && MembersOk(s.users, s.clients, s.channels) && ClientsOk(s.clients)
  }

  // ---- the assumptions on a run ----------------------------------------------

  /** A second NICK of an unregistered client would enter the same record twice. */
  predicate ReentersNick(s: State, fd: Fd, params: seq<string>)
    requires fd in s.clients
  {
    && !s.clients[fd].registered && s.clients[fd].nick.Some?
    && |params| > 0 && params[0] != "" && params[0] !in s.users
  }

  predicate OnSomeChannel(s: State, nick: Nick) {
    exists c :: c in s.channels && nick in s.channels[c]
  }

  predicate MayLeave(s: State, fd: Fd)
    requires fd in s.clients
  {
    s.clients[fd].nick.Some? && !OnSomeChannel(s, s.clients[fd].nick.value)
  }

  function Params(request: Request): seq<string> {
    if request.LUSERS? then [] else request.params
  }

  /** No zero byte: some look-ups and comparisons stop at one and others do not. */
  predicate Textual(request: Request) {
    forall i :: 0 <= i < |Params(request)| ==> '\0' !in Params(request)[i]
  }

  predicate Legal(s: State, step: Step) {
    && Present(s, step) && !Crashes(s, step)
    && match step
       case Connect(_) => true
       case Disconnect(fd) => MayLeave(s, fd)
       case Do(fd, NICK(params)) => Textual(NICK(params)) && !ReentersNick(s, fd, params)
       case Do(_, request) => Textual(request)
  }

  lemma LegalIsPresent(s: State, step: Step)
    ensures Legal(s, step) ==> Present(s, step) && !Crashes(s, step)
  {
  }

  // ---- sending keeps everything but outboxes ---------------------------------

  lemma NotWelcomed(rs: seq<Reply>, r: Reply, n: nat)
    requires !r.Welcome?
    ensures Welcomes(rs + Repeat(r, n)) == Welcomes(rs)
  {
    assert WelcomesAt(rs + Repeat(r, n)) == WelcomesAt(rs);
  }

  lemma OneMore(rs: seq<Reply>, r: Reply)
    ensures Welcomes(rs + [r]) == Welcomes(rs) + if r.Welcome? then 1 else 0
  {
    assert WelcomesAt(rs + [r]) == WelcomesAt(rs) + if r.Welcome? then {|rs|} else {};
  }

  /** The records differ in their outboxes only, and no welcome was added. */
  ghost predicate OnlySentTo(c: Client, d: Client) {
    && d.nick == c.nick && d.username == c.username && d.registered == c.registered
    && d.oper == c.oper && d.conn == c.conn && Welcomes(d.outbox) == Welcomes(c.outbox)
  }

  ghost predicate OnlySent(a: map<Fd, Client>, b: map<Fd, Client>) {
    (forall x :: x in a <==> x in b) && forall x :: x in a ==> OnlySentTo(a[x], b[x])
  }

  lemma SentKeepsInv(s: State, t: State)
    requires Inv(s) && OnlySent(s.clients, t.clients) && t.users == s.users && t.channels == s.channels
    ensures Inv(t)
  {
    assert forall x :: x in s.clients ==> OnlySentTo(s.clients[x], t.clients[x]);
    NicksDependOnNicks(s.users, s.clients, t.clients);
    MembersStay(s, t);
    forall x | x in t.clients
      ensures ClientOk(t.clients[x])
    {
      assert OnlySentTo(s.clients[x], t.clients[x]);
    }
  }

  lemma SendOnlySends(s: State, fd: Fd, r: Reply)
    requires fd in s.clients && !r.Welcome?
    ensures OnlySent(s.clients, Send(s, fd, r).clients)
  {
    hide Welcomes;
    OneMore(s.clients[fd].outbox, r);
  }

  lemma NotifyOnlySends(s: State, members: map<Nick, bool>, skip: Option<Nick>, r: Reply)
    requires !r.Welcome?
    ensures OnlySent(s.clients, Notify(s, members, skip, r).clients)
  {
    hide Welcomes, Reaches;
    forall x | x in s.clients
      ensures Welcomes(s.clients[x].outbox + [r]) == Welcomes(s.clients[x].outbox)
    {
      OneMore(s.clients[x].outbox, r);
    }
  }

  lemma SendInv(s: State, fd: Fd, r: Reply)
    requires Inv(s) && fd in s.clients && !r.Welcome?
    ensures Inv(Send(s, fd, r))
  {
    SendOnlySends(s, fd, r);
    SentKeepsInv(s, Send(s, fd, r));
  }

  lemma NotifyInv(s: State, members: map<Nick, bool>, skip: Option<Nick>, r: Reply)
    requires Inv(s) && !r.Welcome?
    ensures Inv(Notify(s, members, skip, r))
  {
    NotifyOnlySends(s, members, skip, r);
    SentKeepsInv(s, Notify(s, members, skip, r));
  }

  // ---- each handler ----------------------------------------------------------

  /** The record was given a nick or a user name. */
  ghost predicate NewName(c: Client, d: Client) {
    d.registered == c.registered && d.oper == c.oper && d.conn == c.conn && d.outbox == c.outbox
  }

  /** A client that is not registered gets a name; nothing else about it changed. */
  lemma TryRegisterInv(s: State, t: State, fd: Fd)
    requires Inv(s) && fd in s.clients && !s.clients[fd].registered
    requires NicksOk(t.users, t.clients) && t.channels == s.channels
    requires fd in t.clients
    requires forall x :: x in t.clients ==> x in s.clients && (x != fd ==> t.clients[x] == s.clients[x])
    requires forall x :: x in s.clients ==> x in t.clients
    requires forall n :: n in s.users ==> n in t.users && t.users[n] == s.users[n]
    requires NewName(s.clients[fd], t.clients[fd])
    requires t.clients[fd].nick.Some? || t.clients[fd].username.Some?
    ensures Inv(TryRegister(t, fd))
  {
    hide NicksOk, MembersOk, Welcomes;
    var c := t.clients[fd];
    assert ClientOk(s.clients[fd]);
    if c.nick.Some? && c.username.Some? {
      var c' := Put(Advance(c.(registered := true), RegisteredConn), Welcome(c.nick.value));
      OneMore(c.outbox, Welcome(c.nick.value));
      var s1 := t.(clients := t.clients[fd := c']);
      RecordInv(s, t, fd, c');
      SendInv(s1, fd, Numeric(c.nick.value, LusersReply(s1)));
    } else {
      RecordInv(s, t, fd, Advance(c, UserConn));
    }
  }

  /** A client's record is replaced by a sound one with the same nick. */
  lemma RecordInv(s: State, t: State, fd: Fd, c: Client)
    requires Inv(s) && fd in s.clients && !s.clients[fd].registered
    requires NicksOk(t.users, t.clients) && t.channels == s.channels
    requires fd in t.clients
    requires forall x :: x in t.clients ==> x in s.clients && (x != fd ==> t.clients[x] == s.clients[x])
    requires forall x :: x in s.clients ==> x in t.clients
    requires forall n :: n in s.users ==> n in t.users && t.users[n] == s.users[n]
    requires ClientOk(c) && c.nick == t.clients[fd].nick
    ensures Inv(t.(clients := t.clients[fd := c]))
  {
    hide NicksOk, MembersOk, ClientOk;
    var t' := t.(clients := t.clients[fd := c]);
    NicksDependOnNicks(t.users, t.clients, t'.clients);
    MembersStay(s, t');
  }

  lemma MembersStay(s: State, t: State)
    requires Inv(s) && t.channels == s.channels
    requires forall x :: x in s.clients ==> x in t.clients && (s.clients[x].registered ==> t.clients[x].registered)
    requires forall n :: n in s.users ==> n in t.users && t.users[n] == s.users[n]
    ensures MembersOk(t.users, t.clients, t.channels)
  {
  }

  lemma RenamedNicks(users: map<Nick, Fd>, clients: map<Fd, Client>, fd: Fd, was: Nick, now: Nick)
    requires NicksOk(users, clients) && fd in clients && clients[fd].nick == Some(was)
    requires now != "" && now !in users
    ensures NicksOk((users - {was})[now := fd], clients[fd := clients[fd].(nick := Some(now))])
  {
  }

  lemma NicksDependOnNicks(users: map<Nick, Fd>, a: map<Fd, Client>, b: map<Fd, Client>)
    requires NicksOk(users, a) && (forall x :: x in a <==> x in b) && forall x :: x in a ==> b[x].nick == a[x].nick
    ensures NicksOk(users, b)
  {
    forall n | n in users
      ensures n != "" && users[n] in b && b[users[n]].nick == Some(n)
    {
      var x := users[n];
      assert x in a && x in b;
    }
  }

  lemma RenamedMembers(s: State, t: State, fd: Fd, was: Nick, now: Nick)
    requires Inv(s) && fd in s.clients && s.clients[fd].registered && s.clients[fd].nick == Some(was)
    requires now !in s.users
    requires t.users == (s.users - {was})[now := fd] && t.channels == RenameEverywhere(s.channels, was, now)
    requires forall x :: x in s.clients ==> x in t.clients && t.clients[x].registered == s.clients[x].registered
    ensures MembersOk(t.users, t.clients, t.channels)
  {
    forall c | c in t.channels
      ensures t.channels[c] != map[]
    {
      var n :| n in s.channels[c];
      assert (if n == was then now else n) in t.channels[c];
    }
    forall c, n | c in t.channels && n in t.channels[c]
      ensures n in t.users && t.users[n] in t.clients && t.clients[t.users[n]].registered
    {
      assert n != was;
      if n == now {
        assert was in s.channels[c];
      } else {
        assert n in s.channels[c];
        var x := s.users[n];
        assert x in s.clients && x in t.clients;
      }
    }
  }

  lemma RenameInv(s: State, fd: Fd, was: Nick, now: Nick)
    requires Inv(s) && fd in s.clients && s.clients[fd].registered && s.clients[fd].nick == Some(was)
    requires now != "" && now !in s.users
    ensures Inv(Rename(s, fd, was, now))
  {
    hide Welcomes, NicksOk, MembersOk;
    var t := Rename(s, fd, was, now);
    var renamed := s.clients[fd := s.clients[fd].(nick := Some(now))];
    RenamedNicks(s.users, s.clients, fd, was, now);
    NicksDependOnNicks(t.users, renamed, t.clients);
    RenamedMembers(s, t, fd, was, now);
    forall x | x in t.clients
      ensures ClientOk(t.clients[x])
    {
      var n := |Shared(t.users, t.channels, now, x)|;
      assert ClientOk(s.clients[x]);
      NotWelcomed(s.clients[x].outbox, Renamed(was, now), n);
    }
  }

  lemma HandleNickInv(s: State, fd: Fd, params: seq<string>)
    requires Inv(s) && fd in s.clients && !ReentersNick(s, fd, params)
    ensures Inv(HandleNick(s, fd, params))
  {
    var c := s.clients[fd];
    if |params| < 1 {
      SendInv(s, fd, Numeric(Label(c), NoNickGiven));
    } else if params[0] == "" {
    } else if params[0] in s.users {
      SendInv(s, fd, Numeric(Label(c), NickInUse(params[0])));
    } else if c.registered && c.nick.Some? {
      RenameInv(s, fd, c.nick.value, params[0]);
    } else {
      assert ClientOk(c);
      var t := s.(users := s.users[params[0] := fd], clients := s.clients[fd := c.(nick := Some(params[0]))]);
      TryRegisterInv(s, t, fd);
    }
  }

  lemma HandleUserInv(s: State, fd: Fd, params: seq<string>)
    requires Inv(s) && fd in s.clients && !UserLacksNick(s.clients[fd], params)
    ensures Inv(HandleUser(s, fd, params))
  {
    var c := s.clients[fd];
    if c.registered {
      SendInv(s, fd, Numeric(c.nick.value, AlreadyRegistered));
    } else if |params| < 4 {
      SendInv(s, fd, Numeric(c.nick.value, NeedMoreParams("USER")));
    } else {
      var t := s.(clients := s.clients[fd := c.(username := Some(params[0]))]);
      TryRegisterInv(s, t, fd);
    }
  }

  lemma ChannelInv(s: State, name: Name, members: map<Nick, bool>)
    requires Inv(s) && name != "" && members != map[]
    requires forall n :: n in members ==> n in s.users && s.users[n] in s.clients && s.clients[s.users[n]].registered
    ensures Inv(s.(channels := s.channels[name := members]))
  {
  }

  lemma HandleJoinInv(s: State, fd: Fd, nick: Nick, params: seq<string>)
    requires Inv(s) && fd in s.clients && s.clients[fd].registered && s.clients[fd].nick == Some(nick)
    ensures Inv(HandleJoin(s, fd, nick, params))
  {
    hide ClientsOk;
    if |params| < 1 {
      SendInv(s, fd, Numeric(nick, NeedMoreParams("JOIN")));
    } else if params[0] != "" {
      var name := params[0];
      var members := if name in s.channels then s.channels[name] else map[];
      if nick !in members {
        var joined := members[nick := name !in s.channels];
        assert nick in joined;
        ChannelInv(s, name, joined);
        var s1 := s.(channels := s.channels[name := joined]);
        NotifyInv(s1, joined, None, Joined(nick, name));
        SendInv(Notify(s1, joined, None, Joined(nick, name)), fd, Numeric(nick, Names(name)));
      }
    }
  }

  lemma HandlePartInv(s: State, fd: Fd, nick: Nick, params: seq<string>, longlast: bool)
    requires Inv(s) && fd in s.clients && !PartLacksFarewell(s, nick, params, longlast)
    ensures Inv(HandlePart(s, fd, nick, params, longlast))
  {
    hide ClientsOk;
    if |params| < 1 {
      SendInv(s, fd, Numeric(nick, NeedMoreParams("PART")));
    } else {
      var name := params[0];
      if name !in s.channels {
        SendInv(s, fd, Numeric(nick, NoSuchChannel(name)));
      } else if nick !in s.channels[name] {
        SendInv(s, fd, Numeric(nick, NotOnChannel(name)));
      } else {
        var rest := s.channels[name] - {nick};
        var r := Parted(nick, name, if longlast then Some(params[1]) else None);
        var s1 := Send(s, fd, r);
        SendInv(s, fd, r);
        if rest != map[] {
          ChannelInv(s1, name, rest);
          NotifyInv(s1.(channels := s1.channels[name := rest]), rest, None, r);
        }
      }
    }
  }

  lemma HandleModeInv(s: State, fd: Fd, nick: Nick, params: seq<string>)
    requires Inv(s) && fd in s.clients
    ensures Inv(HandleMode(s, fd, nick, params))
  {
    if |params| < 3 {
      SendInv(s, fd, Numeric(nick, NeedMoreParams("MODE")));
    } else {
      var name, mode, target := params[0], params[1], params[2];
      if name !in s.channels {
        SendInv(s, fd, Numeric(nick, NoSuchChannel(name)));
      } else if mode != "-o" && mode != "+o" {
        SendInv(s, fd, Numeric(nick, UnknownMode(mode)));
      } else {
        var members := s.channels[name];
        if target !in members {
          SendInv(s, fd, Numeric(nick, UserNotInChannel(target, name)));
        } else if s.clients[fd].oper || (nick in members && members[nick]) {
          var changed := members[target := mode == "+o"];
          assert target in changed;
          ChannelInv(s, name, changed);
          NotifyInv(s.(channels := s.channels[name := changed]), changed, None, ModeSet(nick, name, mode, target));
        } else {
          SendInv(s, fd, Numeric(nick, ChanOpNeeded(name)));
        }
      }
    }
  }

  lemma HandleOperInv(s: State, fd: Fd, nick: Nick, params: seq<string>)
    requires Inv(s) && fd in s.clients && s.clients[fd].registered
    ensures Inv(HandleOper(s, fd, nick, params))
  {
    if |params| < 2 {
      SendInv(s, fd, Numeric(nick, NeedMoreParams("OPER")));
    } else if params[1] != s.password {
      SendInv(s, fd, Numeric(nick, PasswordMismatch));
    } else {
      var t := s.(ops := s.ops + 1, clients := s.clients[fd := s.clients[fd].(oper := true)]);
      assert ClientOk(s.clients[fd]);
      assert Inv(t);
      SendInv(t, fd, Numeric(nick, YouAreOper));
    }
  }

  lemma HandlePrivmsgInv(s: State, fd: Fd, nick: Nick, params: seq<string>, longlast: bool)
    requires Inv(s) && fd in s.clients
    ensures Inv(HandlePrivmsg(s, fd, nick, params, longlast))
  {
    if |params| < 1 {
      SendInv(s, fd, Numeric(nick, NoRecipient));
    } else if !longlast {
      SendInv(s, fd, Numeric(nick, NoTextToSend));
    } else {
      var target := params[0];
      var r := Said(nick, target, params[|params| - 1]);
      if IsUserTarget(target) {
        if target in s.users && s.users[target] in s.clients {
          SendInv(s, s.users[target], r);
        } else {
          SendInv(s, fd, Numeric(nick, NoSuchNick(target)));
        }
      } else if target !in s.channels {
        SendInv(s, fd, Numeric(nick, NoSuchNick(target)));
      } else if nick !in s.channels[target] {
        SendInv(s, fd, Numeric(nick, CannotSend(target)));
      } else {
        NotifyInv(s, s.channels[target], Some(nick), r);
      }
    }
  }

  lemma HandleInv(s: State, fd: Fd, request: Request)
    requires Inv(s) && Legal(s, Do(fd, request))
    ensures Inv(Handle(s, fd, request))
  {
    hide Inv, HandleNick, HandleUser, HandleJoin, HandlePart, HandleMode, HandleOper, HandlePrivmsg;
    match request
    case NICK(params) => HandleNickInv(s, fd, params);
    case USER(params) => HandleUserInv(s, fd, params);
    case _ =>
      if s.clients[fd].registered && s.clients[fd].nick.Some? {
        var nick := s.clients[fd].nick.value;
        match request {
          case JOIN(params) => HandleJoinInv(s, fd, nick, params);
          case PART(params, longlast) => HandlePartInv(s, fd, nick, params, longlast);
          case MODE(params) => HandleModeInv(s, fd, nick, params);
          case OPER(params) => HandleOperInv(s, fd, nick, params);
          case PRIVMSG(params, longlast) => HandlePrivmsgInv(s, fd, nick, params, longlast);
          case LUSERS => SendInv(s, fd, Numeric(nick, LusersReply(s)));
          case _ =>
        }
      } else {
        SendInv(s, fd, Numeric(Label(s.clients[fd]), NotRegistered));
      }
  }

  lemma ConnectInv(s: State, fd: Fd)
    requires Inv(s) && fd !in s.clients
    ensures Inv(s.(clients := s.clients[fd := NEW_CLIENT]))
  {
    assert WelcomesAt([]) == {};
  }

  /** Every legal step keeps the invariant. */
  lemma TakeInv(s: State, step: Step)
    requires Inv(s) && Legal(s, step)
    ensures Inv(Take(s, step))
  {
    hide Inv, Handle;
    match step
    case Connect(fd) => ConnectInv(s, fd);
    case Disconnect(fd) => DropNamed(s, fd);
    case Do(fd, request) => HandleInv(s, fd, request);
  }

  // ---- runs ------------------------------------------------------------------

  /** The state a run leads to, every step of it legal. */
  ghost predicate LegalRun(password: string, run: seq<Step>) {
    run == [] || (LegalRun(password, run[..|run| - 1]) && Legal(After(password, run[..|run| - 1]), run[|run| - 1]))
  }

  ghost function After(password: string, run: seq<Step>): State {
    if run == [] then Initial(password)
    else
      var s := After(password, run[..|run| - 1]);
      if Present(s, run[|run| - 1]) && !Crashes(s, run[|run| - 1]) then Take(s, run[|run| - 1]) else s
  }

  /** Every reachable state keeps the invariant. */
  lemma {:induction false} ReachableInv(password: string, run: seq<Step>)
    requires LegalRun(password, run)
    ensures Inv(After(password, run))
  {
    if run == [] {
    } else {
      ReachableInv(password, run[..|run| - 1]);
      TakeInv(After(password, run[..|run| - 1]), run[|run| - 1]);
    }
  }

  // ---- the assumptions are exact ---------------------------------------------

  /**
    A disconnecting client can be dropped, and leaves a sound state, exactly when it holds
    a nick and left its channels first.
   */
  lemma DisconnectExact(s: State, fd: Fd)
    requires Inv(s) && fd in s.clients
    ensures Droppable(s, fd) && Inv(Drop(s, fd)) <==> MayLeave(s, fd)
  {
    hide Welcomes;
    if s.clients[fd].nick.Some? {
      DropNamed(s, fd);
    } else if s.users != map[] {
      DropNameless(s, fd);
    }
  }

  lemma DropNamed(s: State, fd: Fd)
    requires Inv(s) && fd in s.clients && s.clients[fd].nick.Some?
    ensures Inv(Drop(s, fd)) <==> MayLeave(s, fd)
  {
    hide ClientOk;
    var nick := s.clients[fd].nick.value;
    if OnSomeChannel(s, nick) {
      var c :| c in s.channels && nick in s.channels[c];
      assert nick !in Drop(s, fd).users;
    }
  }

  /** Freeing the whole user table loses the nick of every other client. */
  lemma DropNameless(s: State, fd: Fd)
    requires Inv(s) && fd in s.clients && s.clients[fd].nick == None && s.users != map[]
    ensures !Inv(Drop(s, fd))
  {
    var n :| n in s.users;
    var x, t := s.users[n], Drop(s, fd);
    assert x in t.clients && t.clients[x].nick == Some(n) && n !in t.users;
  }

  /** A NICK leaves a sound state exactly when it does not enter an unregistered client's record again. */
  lemma ReenteringExact(s: State, fd: Fd, params: seq<string>)
    requires Inv(s) && fd in s.clients
    ensures Inv(HandleNick(s, fd, params)) <==> !ReentersNick(s, fd, params)
  {
    if ReentersNick(s, fd, params) {
      var was := s.clients[fd].nick.value;
      var t := HandleNick(s, fd, params);
      assert was in t.users && t.users[was] == fd && t.clients[fd].nick == Some(params[0]);
    } else {
      HandleNickInv(s, fd, params);
    }
  }
}
