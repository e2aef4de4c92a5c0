/** What each command does for the members of a channel and what it answers, in terms of who is on it. */
module ChatAnswers {
  import opened Optional
  import opened ChatState
  import opened ChatInvariant
  import opened ChatReference
  import opened ChatRefinement
  import opened ChatDelivery

  /** Outboxes grew by the given replies; of a client nothing else changed. */
  ghost predicate Heard(a: map<Fd, Client>, b: map<Fd, Client>, heard: Fd -> seq<Reply>) {
    && (forall x :: x in b <==> x in a)
    && forall x :: x in a ==> b[x] == a[x].(outbox := a[x].outbox + heard(x))
  }

  /** Membership is what it was, but for one client and one channel. */
  ghost predicate SameMembersBut(s: State, t: State, name: Name, fd: Fd) {
    forall c, x :: c != name || x != fd ==> (IsOn(t, c, x) <==> IsOn(s, c, x))
  }

  ghost predicate RSameMembersBut(r: RState, r': RState, name: Name, fd: Fd) {
    forall c, x :: c != name || x != fd ==> (RIsOn(r', c, x) <==> RIsOn(r, c, x))
  }

  predicate RIsOn(r: RState, name: Name, x: Fd) {
    name in r.channels && x in r.channels[name]
  }

  /** A registered client, under this nick. */
  predicate Speaks(s: State, fd: Fd, nick: Nick) {
    fd in s.clients && s.clients[fd].registered && s.clients[fd].nick == Some(nick)
  }

  lemma MembersByIdentity(s: State)
    ensures forall c, x :: IsOn(s, c, x) <==> RIsOn(Ref(s), c, x)
    ensures Ref(s).clients == s.clients && Ref(s).channels.Keys == s.channels.Keys && Ref(s).ops == s.ops
  {
  }

  /** Commands other than NICK leave the user table alone. */
  lemma UsersStay(s: State, fd: Fd, request: Request)
    requires fd in s.clients && !request.NICK? && !Crashes(s, Do(fd, request))
    ensures Handle(s, fd, request).users == s.users
  {
    hide LusersReply, Reaches, PartLacksFarewell, UserLacksNick;
  }

  // ---- members ---------------------------------------------------------------

  lemma JoinHeard(r: RState, fd: Fd, nick: Nick, params: seq<string>)
    requires fd in r.clients && |params| >= 1 && params[0] != "" && !RIsOn(r, params[0], fd)
    ensures var name, r' := params[0], RJoin(r, fd, nick, params);
      && Heard(r.clients, r'.clients, x =>
           (if x == fd || RIsOn(r, name, x) then [Joined(nick, name)] else [])
           + if x == fd then [Numeric(nick, Names(name))] else [])
      && RIsOn(r', name, fd) && RSameMembersBut(r, r', name, fd) && r'.ops == r.ops
  {
  }

  /** Every member, the new one included, hears of a JOIN once; the new one then gets the names. */
  lemma JoinDelivery(s: State, fd: Fd, nick: Nick, params: seq<string>)
    requires Inv(s) && Speaks(s, fd, nick) && |params| >= 1 && params[0] != "" && !IsOn(s, params[0], fd)
    ensures var name, t := params[0], Handle(s, fd, JOIN(params));
      && Heard(s.clients, t.clients, x =>
           (if x == fd || IsOn(s, name, x) then [Joined(nick, name)] else [])
           + if x == fd then [Numeric(nick, Names(name))] else [])
      && IsOn(t, name, fd) && SameMembersBut(s, t, name, fd) && t.users == s.users && t.ops == s.ops
  {
    hide Identify, Ref, Inv, RJoin, HandleJoin, IsOn, RIsOn;
    RefJoin(s, fd, nick, params);
    MembersByIdentity(s);
    MembersByIdentity(Handle(s, fd, JOIN(params)));
    JoinHeard(Ref(s), fd, nick, params);
    UsersStay(s, fd, JOIN(params));
  }

  lemma PartHeard(r: RState, fd: Fd, nick: Nick, params: seq<string>, longlast: bool)
    requires fd in r.clients && |params| >= 1 && RIsOn(r, params[0], fd) && (longlast ==> |params| > 1)
    ensures var name, r' := params[0], RPart(r, fd, nick, params, longlast);
      var farewell := if longlast then Some(params[1]) else None;
      && Heard(r.clients, r'.clients, x => if x == fd || RIsOn(r, name, x) then [Parted(nick, name, farewell)] else [])
      && !RIsOn(r', name, fd) && RSameMembersBut(r, r', name, fd) && r'.ops == r.ops
      && (name in r'.channels <==> exists x :: x != fd && RIsOn(r, name, x))
  {
    var rest := r.channels[params[0]] - {fd};
    assert forall x :: x in rest <==> x in r.channels[params[0]] && x != fd;
    if rest != map[] {
      var x :| x in rest;
      assert x != fd && RIsOn(r, params[0], x);
    }
  }

  /** Every member, the leaving one included, hears of a PART once; a channel nobody is on is gone. */
  lemma PartDelivery(s: State, fd: Fd, nick: Nick, params: seq<string>, longlast: bool)
    requires Inv(s) && Speaks(s, fd, nick) && |params| >= 1 && IsOn(s, params[0], fd) && (longlast ==> |params| > 1)
    ensures var name, t := params[0], Handle(s, fd, PART(params, longlast));
      var farewell := if longlast then Some(params[1]) else None;
      && Heard(s.clients, t.clients, x => if x == fd || IsOn(s, name, x) then [Parted(nick, name, farewell)] else [])
      && !IsOn(t, name, fd) && SameMembersBut(s, t, name, fd) && t.users == s.users && t.ops == s.ops
      && (name in t.channels <==> exists x :: x != fd && IsOn(s, name, x))
  {
    hide Identify, Ref, Inv, RPart, HandlePart, IsOn, RIsOn;
    RefPart(s, fd, nick, params, longlast);
    MembersByIdentity(s);
    MembersByIdentity(Handle(s, fd, PART(params, longlast)));
    PartHeard(Ref(s), fd, nick, params, longlast);
    UsersStay(s, fd, PART(params, longlast));
  }

  lemma ModeHeard(r: RState, fd: Fd, nick: Nick, params: seq<string>, target: Fd)
    requires fd in r.clients && |params| >= 3 && RIsOn(r, params[0], target)
    requires InUse(r.clients, params[2]) && Who(r.clients, params[2]) == target
    requires params[1] == "+o" || params[1] == "-o"
    requires r.clients[fd].oper || (RIsOn(r, params[0], fd) && r.channels[params[0]][fd])
    ensures var name, r' := params[0], RMode(r, fd, nick, params);
      && Heard(r.clients, r'.clients, x =>
           if RIsOn(r, name, x) then [ModeSet(nick, name, params[1], params[2])] else [])
  {
    hide InUse, Who;
  }

  /** An accepted MODE is heard by every member once, sets the one flag, and makes nobody come or go. */
  lemma ModeDelivery(s: State, fd: Fd, nick: Nick, params: seq<string>)
    requires Inv(s) && Speaks(s, fd, nick) && |params| >= 3 && (params[1] == "+o" || params[1] == "-o")
    requires params[0] in s.channels && params[2] in s.channels[params[0]]
    requires s.clients[fd].oper || (nick in s.channels[params[0]] && s.channels[params[0]][nick])
    ensures var name, t := params[0], Handle(s, fd, MODE(params));
      && Heard(s.clients, t.clients, x => if IsOn(s, name, x) then [ModeSet(nick, name, params[1], params[2])] else [])
      && t.channels == s.channels[name := s.channels[name][params[2] := params[1] == "+o"]]
      && t.users == s.users && t.ops == s.ops
  {
    hide Identify, Ref, Inv, RMode, HandleMode, IsOn, RIsOn, Handle;
    ModeTarget(s, fd, nick, params);
    RefMode(s, fd, nick, params);
    MembersByIdentity(s);
    ModeHeard(Ref(s), fd, nick, params, s.users[params[2]]);
    ModeState(s, fd, nick, params);
    IsClients(HandleMode(s, fd, nick, params));
  }

  lemma IsClients(s: State)
    ensures Ref(s).clients == s.clients
  {
  }

  lemma ModeState(s: State, fd: Fd, nick: Nick, params: seq<string>)
    requires Speaks(s, fd, nick) && |params| >= 3 && (params[1] == "+o" || params[1] == "-o")
    requires params[0] in s.channels && params[2] in s.channels[params[0]]
    requires s.clients[fd].oper || (nick in s.channels[params[0]] && s.channels[params[0]][nick])
    ensures var name, t := params[0], Handle(s, fd, MODE(params));
      && t == HandleMode(s, fd, nick, params)
      && t.channels == s.channels[name := s.channels[name][params[2] := params[1] == "+o"]]
      && t.users == s.users && t.ops == s.ops
  {
    hide Reaches;
  }

  /** The sender and the target of an accepted MODE, by identity. */
  lemma ModeTarget(s: State, fd: Fd, nick: Nick, params: seq<string>)
    requires Inv(s) && Speaks(s, fd, nick) && |params| >= 3 && params[0] in s.channels
    requires params[2] in s.channels[params[0]]
    requires s.clients[fd].oper || (nick in s.channels[params[0]] && s.channels[params[0]][nick])
    ensures params[2] in s.users && InUse(s.clients, params[2]) && Who(s.clients, params[2]) == s.users[params[2]]
    ensures RIsOn(Ref(s), params[0], s.users[params[2]])
    ensures s.clients[fd].oper || (RIsOn(Ref(s), params[0], fd) && Ref(s).channels[params[0]][fd])
  {
    hide ClientsOk, Ref, RIsOn;
    var name := params[0];
    WhoIsUser(s.users, s.clients, params[2]);
    FlagByIdentity(s, s.users[params[2]], params[2], name);
    if !s.clients[fd].oper {
      FlagByIdentity(s, fd, nick, name);
    }
  }

  lemma FlagByIdentity(s: State, fd: Fd, nick: Nick, name: Name)
    requires Holds(s.clients, fd, nick) && name in s.channels && nick in s.channels[name]
    ensures RIsOn(Ref(s), name, fd) && Ref(s).channels[name][fd] == s.channels[name][nick]
  {
  }

  // ---- registration ----------------------------------------------------------

  lemma CountsKept(s: State, fd: Fd, r: Reply)
    requires fd in s.clients
    ensures LusersReply(Send(s, fd, r)) == LusersReply(s)
  {
    forall conn
      ensures Count(Send(s, fd, r).clients, conn) == Count(s.clients, conn)
    {
      assert InState(Send(s, fd, r).clients, conn) == InState(s.clients, conn);
    }
  }

  lemma RegisterHeard(s: State, fd: Fd)
    requires fd in s.clients && s.clients[fd].nick.Some? && s.clients[fd].username.Some?
    requires s.clients[fd].conn == UserConn
    ensures var t, c := TryRegister(s, fd), s.clients[fd];
      && t.password == s.password && t.channels == s.channels && t.users == s.users && t.ops == s.ops
      && t.clients == s.clients[fd := Client(c.nick, c.username, true, c.oper, RegisteredConn,
           c.outbox + [Welcome(c.nick.value), Numeric(c.nick.value, LusersReply(t))])]
  {
    hide LusersReply;
    var c := s.clients[fd];
    var c' := Put(Advance(c.(registered := true), RegisteredConn), Welcome(c.nick.value));
    var s1 := s.(clients := s.clients[fd := c']);
    CountsKept(s1, fd, Numeric(c.nick.value, LusersReply(s1)));
    assert c.outbox + [Welcome(c.nick.value)] + [Numeric(c.nick.value, LusersReply(s1))]
        == c.outbox + [Welcome(c.nick.value), Numeric(c.nick.value, LusersReply(s1))];
  }

  lemma NickKnown(s: State, fd: Fd)
    requires NicksOk(s.users, s.clients) && fd in s.clients && s.clients[fd].nick.Some?
    ensures s.users[s.clients[fd].nick.value := fd] == s.users
  {
  }

  /** A client gets both names: it is welcomed and told the counts, and nobody else hears anything. */
  lemma Registration(s: State, fd: Fd, request: Request)
    requires Inv(s) && fd in s.clients && !s.clients[fd].registered && (request.NICK? || request.USER?)
    requires if request.NICK? then s.clients[fd].nick == None && s.clients[fd].username.Some?
             else s.clients[fd].username == None && s.clients[fd].nick.Some?
    requires |request.params| >= if request.NICK? then 1 else 4
    requires request.NICK? ==> request.params[0] != "" && request.params[0] !in s.users
    ensures var t := Handle(s, fd, request);
      var nick := if request.NICK? then request.params[0] else s.clients[fd].nick.value;
      var name := if request.USER? then request.params[0] else s.clients[fd].username.value;
      && t.clients.Keys == s.clients.Keys && t.channels == s.channels && t.ops == s.ops
      && t.users == s.users[nick := fd]
      && (forall x :: x in s.clients && x != fd ==> t.clients[x] == s.clients[x])
      && t.clients[fd] == Client(Some(nick), Some(name), true, false, RegisteredConn,
           s.clients[fd].outbox + [Welcome(nick), Numeric(nick, LusersReply(t))])
  {
    hide LusersReply, MembersOk, NicksOk, Welcomes, TryRegister;
    var c := s.clients[fd];
    assert ClientOk(c);
    if request.NICK? {
      var nick := request.params[0];
      RegisterHeard(s.(users := s.users[nick := fd], clients := s.clients[fd := c.(nick := Some(nick))]), fd);
    } else {
      NickKnown(s, fd);
      RegisterHeard(s.(clients := s.clients[fd := c.(username := Some(request.params[0]))]), fd);
    }
  }

  // ---- answers to the sender alone -------------------------------------------

  /** One client was sent one numeric reply, and nothing else happened. */
  ghost predicate OnlyTold(s: State, t: State, fd: Fd, code: Code) {
    && fd in s.clients
    && var c := s.clients[fd];
       var to := if c.nick.Some? then c.nick.value else "*";
       t == s.(clients := s.clients[fd := c.(outbox := c.outbox + [Numeric(to, code)])])
  }

  /** A client that is not registered is told so, whatever else it asks for. */
  lemma NotRegisteredYet(s: State, fd: Fd, request: Request)
    requires fd in s.clients && !s.clients[fd].registered && !request.NICK? && !request.USER?
    ensures OnlyTold(s, Handle(s, fd, request), fd, NotRegistered)
  {
  }

  /** NICK without a nick, or with one in use; USER with too few parameters, or too late. */
  lemma NamesRefused(s: State, fd: Fd, params: seq<string>)
    requires Inv(s) && fd in s.clients
    ensures params == [] ==> OnlyTold(s, Handle(s, fd, NICK(params)), fd, NoNickGiven)
    ensures params != [] && InUse(s.clients, params[0]) ==>
      OnlyTold(s, Handle(s, fd, NICK(params)), fd, NickInUse(params[0]))
    ensures s.clients[fd].registered ==> OnlyTold(s, Handle(s, fd, USER(params)), fd, AlreadyRegistered)
    ensures !s.clients[fd].registered && s.clients[fd].nick.Some? && |params| < 4 ==>
      OnlyTold(s, Handle(s, fd, USER(params)), fd, NeedMoreParams("USER"))
  {
    hide MembersOk, Welcomes, TryRegister;
    assert ClientOk(s.clients[fd]);
    if params != [] {
      WhoIsUser(s.users, s.clients, params[0]);
    }
  }

  /** Each command says how many parameters it needs. */
  lemma TooFewParams(s: State, fd: Fd, nick: Nick, params: seq<string>, longlast: bool)
    requires Speaks(s, fd, nick)
    ensures params == [] ==> OnlyTold(s, Handle(s, fd, JOIN(params)), fd, NeedMoreParams("JOIN"))
    ensures params == [] ==> OnlyTold(s, Handle(s, fd, PART(params, longlast)), fd, NeedMoreParams("PART"))
    ensures |params| < 3 ==> OnlyTold(s, Handle(s, fd, MODE(params)), fd, NeedMoreParams("MODE"))
    ensures |params| < 2 ==> OnlyTold(s, Handle(s, fd, OPER(params)), fd, NeedMoreParams("OPER"))
    ensures params == [] ==> OnlyTold(s, Handle(s, fd, PRIVMSG(params, longlast)), fd, NoRecipient)
    ensures params != [] && !longlast ==> OnlyTold(s, Handle(s, fd, PRIVMSG(params, longlast)), fd, NoTextToSend)
  {
  }

  /** JOIN of a channel the client is on does nothing; PART and PRIVMSG need a channel the client is on. */
  lemma NotAMember(s: State, fd: Fd, nick: Nick, params: seq<string>, longlast: bool)
    requires Inv(s) && Speaks(s, fd, nick) && params != []
    ensures IsOn(s, params[0], fd) ==> Handle(s, fd, JOIN(params)) == s
    ensures params[0] !in s.channels ==>
      OnlyTold(s, Handle(s, fd, PART(params, longlast)), fd, NoSuchChannel(params[0]))
    ensures params[0] in s.channels && !IsOn(s, params[0], fd) ==>
      OnlyTold(s, Handle(s, fd, PART(params, longlast)), fd, NotOnChannel(params[0]))
    ensures params[0] != "" && params[0][0] == '#' && params[0] !in s.channels ==>
      OnlyTold(s, Handle(s, fd, PRIVMSG(params, true)), fd, NoSuchNick(params[0]))
    ensures params[0] != "" && params[0][0] == '#' && params[0] in s.channels && !IsOn(s, params[0], fd) ==>
      OnlyTold(s, Handle(s, fd, PRIVMSG(params, true)), fd, CannotSend(params[0]))
  {
  }

  predicate IsOperator(s: State, name: Name, x: Fd) {
    IsOn(s, name, x) && s.channels[name][s.clients[x].nick.value]
  }

  /** MODE is refused for the first of these reasons that applies. */
  lemma ModeRefused(s: State, fd: Fd, nick: Nick, name: Name, mode: string, target: Nick)
    requires Speaks(s, fd, nick)
    ensures var t := Handle(s, fd, MODE([name, mode, target]));
      && (name !in s.channels ==> OnlyTold(s, t, fd, NoSuchChannel(name)))
      && (name in s.channels && mode != "+o" && mode != "-o" ==> OnlyTold(s, t, fd, UnknownMode(mode)))
      && (name in s.channels && (mode == "+o" || mode == "-o") ==>
            && (target !in s.channels[name] ==> OnlyTold(s, t, fd, UserNotInChannel(target, name)))
            && (target in s.channels[name] && !s.clients[fd].oper && !IsOperator(s, name, fd) ==>
                  OnlyTold(s, t, fd, ChanOpNeeded(name))))
  {
    var params := [name, mode, target];
    assert params[0] == name && params[1] == mode && params[2] == target;
  }

  /** OPER with the server's password makes an operator, and with another it does not. */
  lemma OperAnswered(s: State, fd: Fd, nick: Nick, params: seq<string>)
    requires Speaks(s, fd, nick) && |params| >= 2
    ensures params[1] != s.password ==> OnlyTold(s, Handle(s, fd, OPER(params)), fd, PasswordMismatch)
    ensures params[1] == s.password ==>
      var made := s.(ops := s.ops + 1, clients := s.clients[fd := s.clients[fd].(oper := true)]);
      OnlyTold(made, Handle(s, fd, OPER(params)), fd, YouAreOper)
  {
  }
}
