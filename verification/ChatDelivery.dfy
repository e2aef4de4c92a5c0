/** Who hears what, and what LUSERS counts. */
module ChatDelivery {
  import opened Optional
  import opened ChatState
  import opened ChatInvariant
  import opened ChatReference
  import opened ChatRefinement
  import opened ChatProvenance

  // ---- delivery is exact -----------------------------------------------------

  /** Nothing but the outboxes changed, and each grew by the given replies. */
  ghost predicate Delivered(s: State, t: State, heard: Fd -> seq<Reply>) {
    && t.password == s.password && t.users == s.users && t.channels == s.channels && t.ops == s.ops
    && (forall x :: x in t.clients <==> x in s.clients)
    && forall x :: x in s.clients ==> t.clients[x] == s.clients[x].(outbox := s.clients[x].outbox + heard(x))
  }

  /** The client is a member of the channel. */
  predicate IsOn(s: State, name: Name, x: Fd) {
    && name in s.channels && x in s.clients && s.clients[x].nick.Some? && s.clients[x].nick.value in s.channels[name]
  }

  /** A channel message reaches each member but its sender once, and nobody else. */
  lemma MessageDelivery(s: State, fd: Fd, params: seq<string>)
    requires Inv(s) && |params| >= 1 && params[0] != "" && params[0][0] == '#' && IsOn(s, params[0], fd)
    ensures var said := Said(s.clients[fd].nick.value, params[0], params[|params| - 1]);
      Delivered(s, Handle(s, fd, PRIVMSG(params, true)),
                x => if IsOn(s, params[0], x) && x != fd then [said] else [])
  {
    var name, nick := params[0], s.clients[fd].nick.value;
    var said := Said(nick, name, params[|params| - 1]);
    var members := s.channels[name];
    assert s.clients[s.users[nick]].registered;
    var t := Handle(s, fd, PRIVMSG(params, true));
    assert t == Notify(s, members, Some(nick), said);
    forall x | x in s.clients
      ensures t.clients[x].outbox == s.clients[x].outbox + if IsOn(s, name, x) && x != fd then [said] else []
    {
      ReachesButSender(s, members, fd, nick, x);
    }
  }

  /** A message to anything but a channel name reaches the client that holds the nick, once, and nobody else. */
  lemma DirectDelivery(s: State, fd: Fd, params: seq<string>)
    requires Inv(s) && fd in s.clients && s.clients[fd].registered && s.clients[fd].nick.Some?
    requires |params| >= 1 && (params[0] == "" || params[0][0] != '#')
    ensures var nick, target, t := s.clients[fd].nick.value, params[0], Handle(s, fd, PRIVMSG(params, true));
      if exists x :: Holds(s.clients, x, target) then
        Delivered(s, t, x => if Holds(s.clients, x, target) then [Said(nick, target, params[|params| - 1])] else [])
      else
        Delivered(s, t, x => if x == fd then [Numeric(nick, NoSuchNick(target))] else [])
  {
    WhoIsUser(s.users, s.clients, params[0]);
  }

  /** The channels two clients are both on. */
  function Common(s: State, x: Fd, y: Fd): set<Name> {
    set c | c in s.channels && IsOn(s, c, x) && IsOn(s, c, y)
  }

  /** A rename is heard by each client once for every channel it shares with the renamed one. */
  lemma RenameDelivery(s: State, fd: Fd, params: seq<string>)
    requires Inv(s) && fd in s.clients && s.clients[fd].registered
    requires |params| >= 1 && params[0] != "" && params[0] !in s.users
    ensures var t := Handle(s, fd, NICK(params));
      && (forall x :: x in t.clients <==> x in s.clients)
      && t.clients[fd].nick == Some(params[0])
      && (forall x :: x in s.clients && x != fd ==> t.clients[x].nick == s.clients[x].nick)
      && forall x :: x in s.clients ==>
           t.clients[x].outbox
           == s.clients[x].outbox + Repeat(Renamed(s.clients[fd].nick.value, params[0]), |Common(s, fd, x)|)
  {
    hide Identify, Handle, NicksOk, MembersOk;
    assert ClientOk(s.clients[fd]);
    var was, now := s.clients[fd].nick.value, params[0];
    HandledRename(s, fd, params);
    RefRename(s, fd, was, now);
    forall x | x in s.clients
      ensures Common(s, fd, x) == RShared(Ref(s).channels, fd, x)
    {
      CommonByIdentity(s, fd, x);
    }
  }

  lemma HandledRename(s: State, fd: Fd, params: seq<string>)
    requires fd in s.clients && s.clients[fd].registered && s.clients[fd].nick.Some?
    requires |params| >= 1 && params[0] != "" && params[0] !in s.users
    ensures Handle(s, fd, NICK(params)) == Rename(s, fd, s.clients[fd].nick.value, params[0])
  {
    hide Rename;
  }

  lemma CommonByIdentity(s: State, x: Fd, y: Fd)
    ensures Common(s, x, y) == RShared(Ref(s).channels, x, y)
  {
    forall c
      ensures c in Common(s, x, y) <==> c in RShared(Ref(s).channels, x, y)
    {
    }
  }

  // ---- clients only advance --------------------------------------------------

  function Rank(conn: Conn): nat {
    match conn case UnknownConn => 0 case UserConn => 1 case RegisteredConn => 2
  }

  /** Names and registration are never lost, the connection only moves on, nothing sent is taken back. */
  ghost predicate Advanced(c: Client, d: Client) {
    && (c.nick.Some? ==> d.nick.Some?) && (c.username.Some? ==> d.username.Some?)
    && (c.registered ==> d.registered && d.username == c.username) && (c.oper ==> d.oper)
    && Rank(c.conn) <= Rank(d.conn) && c.outbox <= d.outbox
  }

  ghost predicate AllAdvanced(a: map<Fd, Client>, b: map<Fd, Client>) {
    forall x :: x in a ==> x in b && Advanced(a[x], b[x])
  }

  lemma AdvancesOn(a: map<Fd, Client>, b: map<Fd, Client>, c: map<Fd, Client>)
    requires AllAdvanced(a, b) && AllAdvanced(b, c)
    ensures AllAdvanced(a, c)
  {
  }

  lemma SendAdvances(r: RState)
    ensures forall fd, reply :: fd in r.clients ==> AllAdvanced(r.clients, RSend(r, fd, reply).clients)
  {
  }

  lemma NotifyAdvances(r: RState, members: map<Fd, bool>, skip: Option<Fd>, reply: Reply)
    ensures AllAdvanced(r.clients, RNotify(r, members, skip, reply).clients)
  {
  }

  lemma JoinAdvances(r: RState, fd: Fd, nick: Nick, params: seq<string>)
    requires fd in r.clients
    ensures AllAdvanced(r.clients, RJoin(r, fd, nick, params).clients)
  {
  }

  lemma PartAdvances(r: RState, fd: Fd, nick: Nick, params: seq<string>, longlast: bool)
    requires fd in r.clients
    ensures AllAdvanced(r.clients, RPart(r, fd, nick, params, longlast).clients)
  {
  }

  lemma ModeAdvances(r: RState, fd: Fd, nick: Nick, params: seq<string>)
    requires fd in r.clients
    ensures AllAdvanced(r.clients, RMode(r, fd, nick, params).clients)
  {
    hide AllAdvanced, RSend, RNotify, InUse, Who;
    SendAdvances(r);
    if |params| >= 3 && InUse(r.clients, params[2]) && params[0] in r.channels {
      var name, target := params[0], Who(r.clients, params[2]);
      var changed := r.channels[name][target := params[1] == "+o"];
      var r1 := r.(channels := r.channels[name := changed]);
      NotifyAdvances(r1, changed, None, ModeSet(nick, name, params[1], params[2]));
    }
  }

  lemma PrivmsgAdvances(r: RState, fd: Fd, nick: Nick, params: seq<string>, longlast: bool)
    requires fd in r.clients
    ensures AllAdvanced(r.clients, RPrivmsg(r, fd, nick, params, longlast).clients)
  {
    hide AllAdvanced, RSend, RNotify, InUse;
    SendAdvances(r);
    if |params| >= 1 && params[0] in r.channels {
      NotifyAdvances(r, r.channels[params[0]], Some(fd), Said(nick, params[0], params[|params| - 1]));
    }
  }

  lemma RegisteredAdvances(r: RState, fd: Fd, nick: Nick, request: Request)
    requires fd in r.clients
    ensures AllAdvanced(r.clients, RRegistered(r, fd, nick, request).clients)
  {
    hide RLusers, RJoin, RPart, RMode, RPrivmsg;
    match request
    case JOIN(params) => JoinAdvances(r, fd, nick, params);
    case PART(params, longlast) => PartAdvances(r, fd, nick, params, longlast);
    case MODE(params) => ModeAdvances(r, fd, nick, params);
    case PRIVMSG(params, longlast) => PrivmsgAdvances(r, fd, nick, params, longlast);
    case _ =>
  }

  lemma TryRegisterAdvances(r: RState, fd: Fd)
    requires fd in r.clients
    ensures AllAdvanced(r.clients, RTryRegister(r, fd).clients)
  {
    hide RLusers;
  }

  lemma RenameAdvances(r: RState, fd: Fd, was: Nick, now: Nick)
    requires fd in r.clients
    ensures AllAdvanced(r.clients, RRename(r, fd, was, now).clients)
  {
    hide RShared;
  }

  lemma NickAdvances(r: RState, fd: Fd, params: seq<string>)
    requires fd in r.clients
    ensures AllAdvanced(r.clients, RNick(r, fd, params).clients)
  {
    hide RRename, RTryRegister, InUse;
    var c := r.clients[fd];
    if |params| >= 1 && params[0] != "" && !InUse(r.clients, params[0]) {
      if c.registered && c.nick.Some? {
        RenameAdvances(r, fd, c.nick.value, params[0]);
      } else {
        var r1 := r.(clients := r.clients[fd := c.(nick := Some(params[0]))]);
        TryRegisterAdvances(r1, fd);
        AdvancesOn(r.clients, r1.clients, RTryRegister(r1, fd).clients);
      }
    }
  }

  lemma UserAdvances(r: RState, fd: Fd, params: seq<string>)
    requires fd in r.clients
    ensures AllAdvanced(r.clients, RUser(r, fd, params).clients)
  {
    hide RTryRegister;
    var c := r.clients[fd];
    if !c.registered && |params| >= 4 {
      var r1 := r.(clients := r.clients[fd := c.(username := Some(params[0]))]);
      TryRegisterAdvances(r1, fd);
      AdvancesOn(r.clients, r1.clients, RTryRegister(r1, fd).clients);
    }
  }

  /** A step takes nothing from a client that stays connected, and registers none that had no name before. */
  lemma StepAdvances(s: State, step: Step)
    requires Inv(s) && Legal(s, step)
    ensures forall x :: x in s.clients && step != Disconnect(x) ==>
              x in Take(s, step).clients && Advanced(s.clients[x], Take(s, step).clients[x])
              && (s.clients[x].conn == UnknownConn ==> Take(s, step).clients[x].conn != RegisteredConn)
  {
    AllAdvance(s, step);
    forall x | x in s.clients && step != Disconnect(x) && s.clients[x].conn == UnknownConn
      ensures Take(s, step).clients[x].conn != RegisteredConn
    {
      NotAtOnce(s, step, x);
    }
  }

  lemma OthersKeepConnNamed(s: State, fd: Fd, params: seq<string>, x: Fd)
    requires fd in s.clients && x in s.clients && x != fd
    ensures x in HandleNick(s, fd, params).clients && HandleNick(s, fd, params).clients[x].conn == s.clients[x].conn
    ensures !UserLacksNick(s.clients[fd], params) ==>
      x in HandleUser(s, fd, params).clients && HandleUser(s, fd, params).clients[x].conn == s.clients[x].conn
  {
    hide LusersReply, Reaches, Shared, RenameEverywhere, UserLacksNick;
  }

  lemma OthersKeepConnRegistered(s: State, fd: Fd, nick: Nick, request: Request, x: Fd)
    requires fd in s.clients && x in s.clients && x != fd
    requires request.PART? ==> !PartLacksFarewell(s, nick, request.params, request.longlast)
    ensures var t := HandleRegistered(s, fd, nick, request);
      x in t.clients && t.clients[x].conn == s.clients[x].conn
  {
    hide LusersReply, Reaches, PartLacksFarewell;
  }

  /** A request of another client leaves a connection as it was. */
  lemma OthersKeepConn(s: State, fd: Fd, request: Request, x: Fd)
    requires fd in s.clients && !Crashes(s, Do(fd, request)) && x in s.clients && x != fd
    ensures x in Handle(s, fd, request).clients && Handle(s, fd, request).clients[x].conn == s.clients[x].conn
  {
    hide HandleNick, HandleUser, HandleRegistered, PartLacksFarewell, UserLacksNick;
    match request
    case NICK(params) => OthersKeepConnNamed(s, fd, params, x);
    case USER(params) => OthersKeepConnNamed(s, fd, params, x);
    case _ =>
      if s.clients[fd].registered && s.clients[fd].nick.Some? {
        OthersKeepConnRegistered(s, fd, s.clients[fd].nick.value, request, x);
      }
  }

  /** A request sets at most one of a client's two names. */
  lemma OneNameAtATime(s: State, fd: Fd, request: Request)
    requires fd in s.clients && !Crashes(s, Do(fd, request))
    requires ClientOk(s.clients[fd]) && s.clients[fd].conn == UnknownConn
    ensures fd in Handle(s, fd, request).clients && Handle(s, fd, request).clients[fd].conn != RegisteredConn
  {
    hide Welcomes, LusersReply, HandleRegistered, Rename;
  }

  lemma NotAtOnce(s: State, step: Step, x: Fd)
    requires Inv(s) && Legal(s, step) && x in s.clients && step != Disconnect(x)
    requires s.clients[x].conn == UnknownConn
    ensures x in Take(s, step).clients && Take(s, step).clients[x].conn != RegisteredConn
  {
    hide Handle, ClientOk, NicksOk, MembersOk, OnSomeChannel;
    assert ClientOk(s.clients[x]);
    if step.Do? {
      if step.fd != x {
        OthersKeepConn(s, step.fd, step.request, x);
      } else {
        OneNameAtATime(s, x, step.request);
      }
    }
  }

  lemma AllAdvance(s: State, step: Step)
    requires Inv(s) && Legal(s, step)
    ensures forall x :: x in s.clients && step != Disconnect(x) ==>
              x in Take(s, step).clients && Advanced(s.clients[x], Take(s, step).clients[x])
  {
    hide Identify, Inv, Take, RNick, RUser, RRegistered;
    RefTake(s, step);
    if step.Do? {
      var r, fd, request := Ref(s), step.fd, step.request;
      if !request.LUSERS? {
        NickAdvances(r, fd, request.params);
        UserAdvances(r, fd, request.params);
      }
      if r.clients[fd].registered && r.clients[fd].nick.Some? {
        RegisteredAdvances(r, fd, r.clients[fd].nick.value, request);
      }
    }
  }

  // ---- LUSERS ----------------------------------------------------------------

  function Registered(s: State): set<Fd> {
    set x | x in s.clients && s.clients[x].registered
  }

  function Nameless(s: State): set<Fd> {
    set x | x in s.clients && s.clients[x].nick == None && s.clients[x].username == None
  }

  function Named(s: State): set<Fd> {
    set x | x in s.clients && (s.clients[x].nick.Some? || s.clients[x].username.Some?)
  }

  function Operators(clients: map<Fd, Client>): set<Fd> {
    set x | x in clients && clients[x].oper
  }

  lemma ConnectionsSay(clients: map<Fd, Client>)
    requires ClientsOk(clients)
    ensures forall x :: x in clients ==>
      && (clients[x].conn == RegisteredConn <==> clients[x].registered)
      && (clients[x].conn == UnknownConn <==> clients[x].nick == None && clients[x].username == None)
  {
    hide Welcomes;
  }

  function InState(clients: map<Fd, Client>, conn: Conn): set<Fd> {
    set x | x in clients && clients[x].conn == conn
  }

  lemma RegisteredAndNameless(s: State)
    requires ClientsOk(s.clients)
    ensures InState(s.clients, RegisteredConn) == Registered(s) && InState(s.clients, UnknownConn) == Nameless(s)
  {
    hide ClientsOk;
    ConnectionsSay(s.clients);
    forall x
      ensures x in InState(s.clients, RegisteredConn) <==> x in Registered(s)
      ensures x in InState(s.clients, UnknownConn) <==> x in Nameless(s)
    {
    }
  }

  lemma NamedSplit(s: State)
    requires ClientsOk(s.clients)
    ensures |Named(s)| == |InState(s.clients, UserConn)| + |InState(s.clients, RegisteredConn)|
  {
    hide ClientsOk;
    ConnectionsSay(s.clients);
    var users, registered := InState(s.clients, UserConn), InState(s.clients, RegisteredConn);
    assert users !! registered;
    assert Named(s) == users + registered by {
      forall x | x in s.clients
        ensures x in Named(s) <==> x in users + registered
      {
      }
    }
  }

  /** Apart from operators, the connection states count what the user records say. */
  lemma LusersRecount(s: State)
    requires Inv(s)
    ensures LusersReply(s) == Lusers(|Registered(s)|, s.ops, |Nameless(s)|, |s.channels|, |Named(s)|)
  {
    hide NicksOk, MembersOk, ClientsOk, Registered, Nameless, Named;
    RegisteredAndNameless(s);
    NamedSplit(s);
    forall conn
      ensures Count(s.clients, conn) == |InState(s.clients, conn)|
    {
    }
  }

  /** OPER by a client that is an operator already, or an operator gone. */
  predicate Miscounts(s: State, step: Step) {
    match step
    case Disconnect(fd) => fd in s.clients && s.clients[fd].oper
    case Do(fd, OPER(params)) => fd in s.clients && s.clients[fd].oper && |params| >= 2 && params[1] == s.password
    case _ => false
  }

  /** The operator count runs ahead of the operators by one for each such step. */
  lemma OpsStep(s: State, step: Step)
    requires Inv(s) && Legal(s, step)
    ensures Take(s, step).ops - |Operators(Take(s, step).clients)|
         == s.ops - |Operators(s.clients)| + if Miscounts(s, step) then 1 else 0
  {
    hide Identify, Take, Inv, RHandle;
    var r, r' := Ref(s), Ref(Take(s, step));
    RefTake(s, step);
    match step
    case Connect(fd) =>
      assert Operators(r'.clients) == Operators(r.clients);
    case Disconnect(fd) =>
      assert Operators(r'.clients) == Operators(r.clients) - {fd};
    case Do(fd, request) => RequestCountsOps(s, fd, request);
  }

  lemma OperCounts(r: RState, fd: Fd, nick: Nick, params: seq<string>)
    requires fd in r.clients
    ensures ROper(r, fd, nick, params).ops - |Operators(ROper(r, fd, nick, params).clients)|
         == r.ops - |Operators(r.clients)|
            + if r.clients[fd].oper && |params| >= 2 && params[1] == r.password then 1 else 0
  {
    var a, b := Operators(r.clients), Operators(ROper(r, fd, nick, params).clients);
    if |params| >= 2 && params[1] == r.password {
      assert b == a + {fd};
      assert fd in a ==> a + {fd} == a;
    } else {
      assert b == a;
    }
  }

  lemma RequestCountsOps(s: State, fd: Fd, request: Request)
    requires Inv(s) && fd in s.clients
    ensures var r, r' := Ref(s), RHandle(Ref(s), fd, request);
      r'.ops - |Operators(r'.clients)|
        == r.ops - |Operators(r.clients)| + if Miscounts(s, Do(fd, request)) then 1 else 0
  {
    hide Identify, RNick, RUser, RJoin, RPart, RMode, RPrivmsg, ROper, RLusers, InUse, Who,
      NicksOk, MembersOk, Welcomes;
    var r, r' := Ref(s), RHandle(Ref(s), fd, request);
    assert ClientOk(s.clients[fd]);
    if request.OPER? && s.clients[fd].registered {
      OperCounts(r, fd, r.clients[fd].nick.value, request.params);
    } else {
      NamesKeepOpers(r, fd, if request.LUSERS? then [] else request.params);
      if s.clients[fd].registered && !request.OPER? {
        OthersKeepOpers(r, fd, r.clients[fd].nick.value, request);
      }
      SameOperators(r, r');
    }
  }

  lemma SameOperators(r: RState, r': RState)
    requires SameOpers(r, r')
    ensures Operators(r'.clients) == Operators(r.clients)
  {
    forall x
      ensures x in Operators(r'.clients) <==> x in Operators(r.clients)
    {
    }
  }

  ghost function Drift(password: string, run: seq<Step>): nat {
    if run == [] then 0
    else
      var was := run[..|run| - 1];
      Drift(password, was) + if Miscounts(After(password, was), run[|run| - 1]) then 1 else 0
  }

  /** LUSERS reports the true number of operators exactly when no step of the run miscounted one. */
  lemma {:induction false} OperatorCount(password: string, run: seq<Step>)
    requires LegalRun(password, run)
    ensures After(password, run).ops == |Operators(After(password, run).clients)| + Drift(password, run)
  {
    hide Take, Miscounts, Legal, Inv, Operators;
    if run != [] {
      var was, step := run[..|run| - 1], run[|run| - 1];
      OperatorCount(password, was);
      ReachableInv(password, was);
      LegalIsPresent(After(password, was), step);
      OpsStep(After(password, was), step);
    } else {
      NoOperators();
    }
  }

  lemma NoOperators()
    ensures Operators(map[]) == {}
  {
  }
}
