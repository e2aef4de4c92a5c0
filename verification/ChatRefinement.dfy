/** The nick-keyed server does what the reference server does, on every run. */
module ChatRefinement {
  import opened Optional
  import opened ChatState
  import opened ChatInvariant
  import opened ChatReference

  /** The members of a channel by identity. */
  function Identify(clients: map<Fd, Client>, members: map<Nick, bool>): map<Fd, bool> {
    map x | x in clients && clients[x].nick.Some? && clients[x].nick.value in members :: members[clients[x].nick.value]
  }

  /** The reference state a server state stands for. */
  function Ref(s: State): RState {
    RState(s.password, s.clients, map c | c in s.channels :: Identify(s.clients, s.channels[c]), s.ops)
  }

  // ---- members by nick and by identity ---------------------------------------

  lemma ReachesIsMember(s: State, members: map<Nick, bool>, x: Fd)
    requires NicksOk(s.users, s.clients) && x in s.clients
    requires forall n :: n in members ==> n in s.users
    ensures Reaches(s.users, members, None, x) <==> x in Identify(s.clients, members)
  {
    if x in Identify(s.clients, members) {
      assert s.clients[x].nick.value in members;
    }
  }

  lemma ReachesButSender(s: State, members: map<Nick, bool>, fd: Fd, nick: Nick, x: Fd)
    requires NicksOk(s.users, s.clients) && x in s.clients && Holds(s.clients, fd, nick)
    requires forall n :: n in members ==> n in s.users
    ensures Reaches(s.users, members, Some(nick), x) <==> x in Identify(s.clients, members) && x != fd
  {
    if x in Identify(s.clients, members) && x != fd {
      var n := s.clients[x].nick.value;
      assert n in members && Some(n) != Some(nick);
    }
  }

  lemma SameMap<K, V>(a: map<K, V>, b: map<K, V>)
    requires forall x :: x in a <==> x in b
    requires forall x :: x in a ==> a[x] == b[x]
    ensures a == b
  {
  }

  lemma IdentifySet(users: map<Nick, Fd>, clients: map<Fd, Client>, members: map<Nick, bool>,
                    fd: Fd, nick: Nick, b: bool)
    requires NicksOk(users, clients) && Holds(clients, fd, nick)
    ensures Identify(clients, members[nick := b]) == Identify(clients, members)[fd := b]
  {
    var a, d := Identify(clients, members[nick := b]), Identify(clients, members)[fd := b];
    forall x
      ensures x in a <==> x in d
      ensures x in a ==> a[x] == d[x]
    {
    }
    SameMap(a, d);
  }

  lemma IdentifyRemove(users: map<Nick, Fd>, clients: map<Fd, Client>, members: map<Nick, bool>, fd: Fd, nick: Nick)
    requires NicksOk(users, clients) && Holds(clients, fd, nick)
    ensures Identify(clients, members - {nick}) == Identify(clients, members) - {fd}
  {
    var a, d := Identify(clients, members - {nick}), Identify(clients, members) - {fd};
    forall x
      ensures x in a <==> x in d
      ensures x in a ==> a[x] == d[x]
    {
    }
    SameMap(a, d);
  }

  lemma IdentifyRename(users: map<Nick, Fd>, clients: map<Fd, Client>, members: map<Nick, bool>,
                       fd: Fd, was: Nick, now: Nick)
    requires NicksOk(users, clients) && Holds(clients, fd, was) && now !in users && now !in members
    ensures Identify(clients[fd := clients[fd].(nick := Some(now))], RenameMember(members, was, now))
         == Identify(clients, members)
  {
    var a := Identify(clients[fd := clients[fd].(nick := Some(now))], RenameMember(members, was, now));
    var d := Identify(clients, members);
    forall x
      ensures x in a <==> x in d
      ensures x in a ==> a[x] == d[x]
    {
    }
    SameMap(a, d);
  }

  lemma IdentifyByNick(a: map<Fd, Client>, b: map<Fd, Client>, members: map<Nick, bool>)
    requires (forall x :: x in a <==> x in b) && forall x :: x in a ==> b[x].nick == a[x].nick
    ensures Identify(a, members) == Identify(b, members)
  {
    forall x
      ensures x in Identify(a, members) <==> x in Identify(b, members)
      ensures x in Identify(a, members) ==> Identify(a, members)[x] == Identify(b, members)[x]
    {
    }
    SameMap(Identify(a, members), Identify(b, members));
  }

  lemma IdentifyEmpty(users: map<Nick, Fd>, clients: map<Fd, Client>, members: map<Nick, bool>)
    requires NicksOk(users, clients) && forall n :: n in members ==> n in users
    ensures Identify(clients, members) == map[] <==> members == map[]
  {
    if members != map[] {
      var n :| n in members;
      assert users[n] in Identify(clients, members);
    }
  }

  lemma WhoIsUser(users: map<Nick, Fd>, clients: map<Fd, Client>, nick: Nick)
    requires NicksOk(users, clients)
    ensures InUse(clients, nick) <==> nick in users
    ensures nick in users ==> Who(clients, nick) == users[nick]
  {
    if nick in users {
      assert Holds(clients, users[nick], nick);
    }
  }

  // ---- the pieces of a step --------------------------------------------------

  /** Records change, no nick does. */
  lemma RefClients(s: State, clients: map<Fd, Client>)
    requires forall x :: x in clients <==> x in s.clients
    requires forall x :: x in clients ==> clients[x].nick == s.clients[x].nick
    ensures Ref(s.(clients := clients)) == Ref(s).(clients := clients)
  {
    hide Identify;
    var a, b := Ref(s.(clients := clients)).channels, Ref(s).channels;
    forall c | c in s.channels
      ensures a[c] == b[c]
    {
      IdentifyByNick(s.clients, clients, s.channels[c]);
    }
    SameMap(a, b);
  }

  lemma RefSend(s: State, fd: Fd, r: Reply)
    requires fd in s.clients
    ensures Ref(Send(s, fd, r)) == RSend(Ref(s), fd, r)
  {
    hide Identify;
    RefClients(s, s.clients[fd := Put(s.clients[fd], r)]);
  }

  lemma NotifiedAlike(s: State, members: map<Nick, bool>, r: Reply)
    requires NicksOk(s.users, s.clients) && forall n :: n in members ==> n in s.users
    ensures Notify(s, members, None, r).clients == RNotify(Ref(s), Identify(s.clients, members), None, r).clients
  {
    hide Identify, Reaches, NicksOk;
    var a, b := Notify(s, members, None, r).clients, RNotify(Ref(s), Identify(s.clients, members), None, r).clients;
    forall x | x in s.clients
      ensures a[x] == b[x]
    {
      ReachesIsMember(s, members, x);
    }
    SameMap(a, b);
  }

  lemma RefNotify(s: State, members: map<Nick, bool>, r: Reply)
    requires NicksOk(s.users, s.clients) && forall n :: n in members ==> n in s.users
    ensures Ref(Notify(s, members, None, r)) == RNotify(Ref(s), Identify(s.clients, members), None, r)
  {
    hide Identify, Reaches, NicksOk;
    NotifiedAlike(s, members, r);
    RefClients(s, Notify(s, members, None, r).clients);
  }

  lemma OthersNotifiedAlike(s: State, members: map<Nick, bool>, fd: Fd, nick: Nick, r: Reply)
    requires NicksOk(s.users, s.clients) && Holds(s.clients, fd, nick) && forall n :: n in members ==> n in s.users
    ensures Notify(s, members, Some(nick), r).clients
         == RNotify(Ref(s), Identify(s.clients, members), Some(fd), r).clients
  {
    hide Identify, Reaches, NicksOk;
    var a := Notify(s, members, Some(nick), r).clients;
    var b := RNotify(Ref(s), Identify(s.clients, members), Some(fd), r).clients;
    forall x | x in s.clients
      ensures a[x] == b[x]
    {
      ReachesButSender(s, members, fd, nick, x);
    }
    SameMap(a, b);
  }

  lemma RefNotifyOthers(s: State, members: map<Nick, bool>, fd: Fd, nick: Nick, r: Reply)
    requires NicksOk(s.users, s.clients) && Holds(s.clients, fd, nick) && forall n :: n in members ==> n in s.users
    ensures Ref(Notify(s, members, Some(nick), r)) == RNotify(Ref(s), Identify(s.clients, members), Some(fd), r)
  {
    hide Identify, Reaches, NicksOk;
    OthersNotifiedAlike(s, members, fd, nick, r);
    RefClients(s, Notify(s, members, Some(nick), r).clients);
  }

  lemma RefChannel(s: State, name: Name, members: map<Nick, bool>)
    ensures Ref(s.(channels := s.channels[name := members]))
         == Ref(s).(channels := Ref(s).channels[name := Identify(s.clients, members)])
  {
    hide Identify;
    SameMap(Ref(s.(channels := s.channels[name := members])).channels,
            Ref(s).channels[name := Identify(s.clients, members)]);
  }

  lemma RefChannelGone(s: State, name: Name)
    ensures Ref(s.(channels := s.channels - {name})) == Ref(s).(channels := Ref(s).channels - {name})
  {
    hide Identify;
    SameMap(Ref(s.(channels := s.channels - {name})).channels, Ref(s).channels - {name});
  }

  lemma RefLusers(s: State)
    ensures RLusers(Ref(s)) == LusersReply(s)
  {
    hide Identify;
    assert Ref(s).channels.Keys == s.channels.Keys;
  }

  lemma RefTryRegister(s: State, fd: Fd)
    requires fd in s.clients
    ensures Ref(TryRegister(s, fd)) == RTryRegister(Ref(s), fd)
  {
    hide Identify;
    var c := s.clients[fd];
    if c.nick.Some? && c.username.Some? {
      var c' := Put(Advance(c.(registered := true), RegisteredConn), Welcome(c.nick.value));
      var s1 := s.(clients := s.clients[fd := c']);
      RefClients(s, s1.clients);
      RefLusers(s1);
      RefSend(s1, fd, Numeric(c.nick.value, LusersReply(s1)));
    } else {
      RefClients(s, s.clients[fd := Advance(c, UserConn)]);
    }
  }

  // ---- each handler ----------------------------------------------------------

  lemma HolderIs(s: State, fd: Fd, nick: Nick)
    requires NicksOk(s.users, s.clients) && Holds(s.clients, fd, nick)
    ensures nick in s.users && s.users[nick] == fd
  {
  }

  lemma IsMember(s: State, fd: Fd, nick: Nick, members: map<Nick, bool>)
    requires Holds(s.clients, fd, nick)
    ensures nick in members <==> fd in Identify(s.clients, members)
    ensures nick in members ==> Identify(s.clients, members)[fd] == members[nick]
  {
  }

  lemma RefJoin(s: State, fd: Fd, nick: Nick, params: seq<string>)
    requires Inv(s) && Holds(s.clients, fd, nick)
    ensures Ref(HandleJoin(s, fd, nick, params)) == RJoin(Ref(s), fd, nick, params)
  {
    hide Identify, RNotify, Send, RSend, ClientsOk;
    if |params| < 1 {
      RefSend(s, fd, Numeric(nick, NeedMoreParams("JOIN")));
    } else if params[0] != "" {
      var name := params[0];
      var members := if name in s.channels then s.channels[name] else map[];
      IsMember(s, fd, nick, members);
      IdentifyEmpty(s.users, s.clients, map[]);
      if nick !in members {
        var joined := members[nick := name !in s.channels];
        HolderIs(s, fd, nick);
        IdentifySet(s.users, s.clients, members, fd, nick, name !in s.channels);
        RefChannel(s, name, joined);
        var s1 := s.(channels := s.channels[name := joined]);
        RefNotify(s1, joined, Joined(nick, name));
        RefSend(Notify(s1, joined, None, Joined(nick, name)), fd, Numeric(nick, Names(name)));
      }
    }
  }

  lemma RefPart(s: State, fd: Fd, nick: Nick, params: seq<string>, longlast: bool)
    requires Inv(s) && Holds(s.clients, fd, nick) && !PartLacksFarewell(s, nick, params, longlast)
    ensures Ref(HandlePart(s, fd, nick, params, longlast)) == RPart(Ref(s), fd, nick, params, longlast)
  {
    hide Identify, Notify, RNotify, ClientsOk;
    if |params| < 1 {
      RefSend(s, fd, Numeric(nick, NeedMoreParams("PART")));
    } else {
      var name := params[0];
      if name !in s.channels {
        RefSend(s, fd, Numeric(nick, NoSuchChannel(name)));
      } else {
        IsMember(s, fd, nick, s.channels[name]);
        if nick !in s.channels[name] {
          RefSend(s, fd, Numeric(nick, NotOnChannel(name)));
        } else {
          var rest := s.channels[name] - {nick};
          var r := Parted(nick, name, if longlast then Some(params[1]) else None);
          var s1 := Send(s, fd, r);
          RefSend(s, fd, r);
          SendInv(s, fd, r);
          IdentifyRemove(s.users, s.clients, s.channels[name], fd, nick);
          IdentifyEmpty(s.users, s.clients, rest);
          if rest == map[] {
            RefChannelGone(s1, name);
          } else {
            RefChannel(s1, name, rest);
            IdentifyByNick(s.clients, s1.clients, rest);
            RefNotify(s1.(channels := s1.channels[name := rest]), rest, r);
          }
        }
      }
    }
  }

  lemma RefMode(s: State, fd: Fd, nick: Nick, params: seq<string>)
    requires Inv(s) && Holds(s.clients, fd, nick)
    ensures Ref(HandleMode(s, fd, nick, params)) == RMode(Ref(s), fd, nick, params)
  {
    hide Identify, Notify, RNotify, Send, RSend, ClientsOk;
    if |params| < 3 {
      RefSend(s, fd, Numeric(nick, NeedMoreParams("MODE")));
    } else {
      var name, mode, target := params[0], params[1], params[2];
      if name !in s.channels {
        RefSend(s, fd, Numeric(nick, NoSuchChannel(name)));
      } else if mode != "-o" && mode != "+o" {
        RefSend(s, fd, Numeric(nick, UnknownMode(mode)));
      } else {
        var members := s.channels[name];
        IsMember(s, fd, nick, members);
        WhoIsUser(s.users, s.clients, target);
        if target in s.users {
          IsMember(s, s.users[target], target, members);
        }
        if target !in members {
          RefSend(s, fd, Numeric(nick, UserNotInChannel(target, name)));
        } else if s.clients[fd].oper || (nick in members && members[nick]) {
          var changed := members[target := mode == "+o"];
          IdentifySet(s.users, s.clients, members, s.users[target], target, mode == "+o");
          RefChannel(s, name, changed);
          RefNotify(s.(channels := s.channels[name := changed]), changed, ModeSet(nick, name, mode, target));
        } else {
          RefSend(s, fd, Numeric(nick, ChanOpNeeded(name)));
        }
      }
    }
  }

  lemma RefOper(s: State, fd: Fd, nick: Nick, params: seq<string>)
    requires fd in s.clients
    ensures Ref(HandleOper(s, fd, nick, params)) == ROper(Ref(s), fd, nick, params)
  {
    hide Identify;
    if |params| < 2 {
      RefSend(s, fd, Numeric(nick, NeedMoreParams("OPER")));
    } else if params[1] != s.password {
      RefSend(s, fd, Numeric(nick, PasswordMismatch));
    } else {
      var t := s.(ops := s.ops + 1, clients := s.clients[fd := s.clients[fd].(oper := true)]);
      RefClients(s, t.clients);
      RefSend(t, fd, Numeric(nick, YouAreOper));
    }
  }

  lemma RefPrivmsg(s: State, fd: Fd, nick: Nick, params: seq<string>, longlast: bool)
    requires Inv(s) && Holds(s.clients, fd, nick)
    ensures Ref(HandlePrivmsg(s, fd, nick, params, longlast)) == RPrivmsg(Ref(s), fd, nick, params, longlast)
  {
    hide Identify, Notify, RNotify, Send, RSend, ClientsOk;
    if |params| < 1 {
      RefSend(s, fd, Numeric(nick, NoRecipient));
    } else if !longlast {
      RefSend(s, fd, Numeric(nick, NoTextToSend));
    } else {
      var target := params[0];
      var r := Said(nick, target, params[|params| - 1]);
      if IsUserTarget(target) {
        WhoIsUser(s.users, s.clients, target);
        if target in s.users {
          RefSend(s, s.users[target], r);
        } else {
          RefSend(s, fd, Numeric(nick, NoSuchNick(target)));
        }
      } else if target !in s.channels {
        RefSend(s, fd, Numeric(nick, NoSuchNick(target)));
      } else {
        IsMember(s, fd, nick, s.channels[target]);
        if nick !in s.channels[target] {
          RefSend(s, fd, Numeric(nick, CannotSend(target)));
        } else {
          RefNotifyOthers(s, s.channels[target], fd, nick, r);
        }
      }
    }
  }

  lemma RefUser(s: State, fd: Fd, params: seq<string>)
    requires fd in s.clients && !UserLacksNick(s.clients[fd], params)
    ensures Ref(HandleUser(s, fd, params)) == RUser(Ref(s), fd, params)
  {
    hide Identify, TryRegister, RTryRegister;
    var c := s.clients[fd];
    if c.registered {
      RefSend(s, fd, Numeric(c.nick.value, AlreadyRegistered));
    } else if |params| < 4 {
      RefSend(s, fd, Numeric(c.nick.value, NeedMoreParams("USER")));
    } else {
      var clients := s.clients[fd := c.(username := Some(params[0]))];
      RefClients(s, clients);
      RefTryRegister(s.(clients := clients), fd);
    }
  }

  // ---- renaming is relabelling -----------------------------------------------

  /** The server just after the labels changed and before anybody is told. */
  function Relabelled(s: State, fd: Fd, was: Nick, now: Nick): State
    requires fd in s.clients
  {
    s.(users := (s.users - {was})[now := fd], channels := RenameEverywhere(s.channels, was, now),
       clients := s.clients[fd := s.clients[fd].(nick := Some(now))])
  }

  lemma RelabelledFacts(s: State, fd: Fd, was: Nick, now: Nick)
    requires Inv(s) && Holds(s.clients, fd, was) && s.clients[fd].registered && now != "" && now !in s.users
    ensures var t := Relabelled(s, fd, was, now);
      && NicksOk(t.users, t.clients) && MembersOk(t.users, t.clients, t.channels)
      && Ref(t) == Ref(s).(clients := t.clients)
  {
    hide Identify, ClientsOk;
    var t := Relabelled(s, fd, was, now);
    RenamedNicks(s.users, s.clients, fd, was, now);
    RenamedMembers(s, t, fd, was, now);
    forall c | c in s.channels
      ensures Ref(t).channels[c] == Ref(s).channels[c]
    {
      assert now !in s.channels[c];
      IdentifyRename(s.users, s.clients, s.channels[c], fd, was, now);
    }
    SameMap(Ref(t).channels, Ref(s).channels);
  }

  /** The channels through which x hears of the rename are the ones it shares with the renamed user. */
  lemma SharedByIdentity(t: State, fd: Fd, nick: Nick, x: Fd)
    requires NicksOk(t.users, t.clients) && MembersOk(t.users, t.clients, t.channels)
    requires Holds(t.clients, fd, nick) && x in t.clients
    ensures Shared(t.users, t.channels, nick, x) == RShared(Ref(t).channels, fd, x)
  {
    hide Identify, Reaches, NicksOk;
    forall c | c in t.channels
      ensures c in Shared(t.users, t.channels, nick, x) <==> c in RShared(Ref(t).channels, fd, x)
    {
      IsMember(t, fd, nick, t.channels[c]);
      ReachesIsMember(t, t.channels[c], x);
    }
  }

  lemma RefRename(s: State, fd: Fd, was: Nick, now: Nick)
    requires Inv(s) && Holds(s.clients, fd, was) && s.clients[fd].registered && now != "" && now !in s.users
    ensures Ref(Rename(s, fd, was, now)) == RRename(Ref(s), fd, was, now)
  {
    hide Identify, Shared, RShared, NicksOk, MembersOk, ClientsOk, RenameEverywhere;
    var t := Relabelled(s, fd, was, now);
    RelabelledFacts(s, fd, was, now);
    var a, b := Rename(s, fd, was, now).clients, RRename(Ref(s), fd, was, now).clients;
    forall x | x in t.clients
      ensures a[x] == b[x]
    {
      SharedByIdentity(t, fd, now, x);
    }
    SameMap(a, b);
    RefClients(t, a);
  }

  lemma RefNick(s: State, fd: Fd, params: seq<string>)
    requires Inv(s) && fd in s.clients && !ReentersNick(s, fd, params)
    ensures Ref(HandleNick(s, fd, params)) == RNick(Ref(s), fd, params)
  {
    hide Identify, Rename, RRename, TryRegister, RTryRegister;
    var c := s.clients[fd];
    if |params| < 1 {
      RefSend(s, fd, Numeric(Label(c), NoNickGiven));
    } else if params[0] != "" {
      var now := params[0];
      WhoIsUser(s.users, s.clients, now);
      if now in s.users {
        RefSend(s, fd, Numeric(Label(c), NickInUse(now)));
      } else if c.registered && c.nick.Some? {
        RefRename(s, fd, c.nick.value, now);
      } else {
        assert ClientOk(c);
        var t := s.(users := s.users[now := fd], clients := s.clients[fd := c.(nick := Some(now))]);
        FirstNick(s, fd, now);
        RefTryRegister(t, fd);
      }
    }
  }

  /** A first nick makes nobody a member. */
  lemma FirstNick(s: State, fd: Fd, now: Nick)
    requires Inv(s) && fd in s.clients && s.clients[fd].nick == None && now !in s.users
    ensures var clients := s.clients[fd := s.clients[fd].(nick := Some(now))];
      Ref(s.(users := s.users[now := fd], clients := clients)) == Ref(s).(clients := clients)
  {
    hide ClientsOk;
    var clients := s.clients[fd := s.clients[fd].(nick := Some(now))];
    forall c | c in s.channels
      ensures Identify(clients, s.channels[c]) == Identify(s.clients, s.channels[c])
    {
      assert now !in s.channels[c];
      SameMap(Identify(clients, s.channels[c]), Identify(s.clients, s.channels[c]));
    }
    SameMap(Ref(s.(clients := clients)).channels, Ref(s).channels);
  }

  /** A client on no channel can go: nobody loses a member. */
  lemma RefDrop(s: State, fd: Fd)
    requires Inv(s) && fd in s.clients && MayLeave(s, fd)
    ensures Ref(Drop(s, fd)) == Ref(s).(clients := s.clients - {fd})
  {
    hide ClientsOk, MembersOk, NicksOk;
    var clients := s.clients - {fd};
    forall c | c in s.channels
      ensures Identify(clients, s.channels[c]) == Identify(s.clients, s.channels[c])
    {
      assert s.clients[fd].nick.value !in s.channels[c];
      SameMap(Identify(clients, s.channels[c]), Identify(s.clients, s.channels[c]));
    }
    SameMap(Ref(Drop(s, fd)).channels, Ref(s).channels);
  }

  lemma RefConnect(s: State, fd: Fd)
    requires fd !in s.clients
    ensures Ref(s.(clients := s.clients[fd := NEW_CLIENT])) == Ref(s).(clients := s.clients[fd := NEW_CLIENT])
  {
    var clients := s.clients[fd := NEW_CLIENT];
    forall c | c in s.channels
      ensures Identify(clients, s.channels[c]) == Identify(s.clients, s.channels[c])
    {
      SameMap(Identify(clients, s.channels[c]), Identify(s.clients, s.channels[c]));
    }
    SameMap(Ref(s.(clients := clients)).channels, Ref(s).channels);
  }

  // ---- every step and every run ----------------------------------------------

  lemma RefHandle(s: State, fd: Fd, request: Request)
    requires Inv(s) && Legal(s, Do(fd, request))
    ensures Ref(Handle(s, fd, request)) == RHandle(Ref(s), fd, request)
  {
    hide Ref, HandleJoin, HandlePart, HandleMode, HandleOper, HandlePrivmsg, HandleNick, HandleUser,
      RJoin, RPart, RMode, ROper, RPrivmsg, RNick, RUser, NicksOk, MembersOk, ClientsOk, Send, RSend;
    RefIsClients(s);
    match request
    case NICK(params) => RefNick(s, fd, params);
    case USER(params) => RefUser(s, fd, params);
    case _ =>
      if s.clients[fd].registered && s.clients[fd].nick.Some? {
        var nick := s.clients[fd].nick.value;
        match request {
          case JOIN(params) => RefJoin(s, fd, nick, params);
          case PART(params, longlast) => RefPart(s, fd, nick, params, longlast);
          case MODE(params) => RefMode(s, fd, nick, params);
          case OPER(params) => RefOper(s, fd, nick, params);
          case PRIVMSG(params, longlast) => RefPrivmsg(s, fd, nick, params, longlast);
          case LUSERS =>
            RefLusers(s);
            RefSend(s, fd, Numeric(nick, LusersReply(s)));
          case _ =>
        }
      } else {
        RefSend(s, fd, Numeric(Label(s.clients[fd]), NotRegistered));
      }
  }

  lemma RefIsClients(s: State)
    ensures Ref(s).clients == s.clients
  {
  }

  /** One step of the server is one step of the reference server. */
  lemma RefTake(s: State, step: Step)
    requires Inv(s) && Legal(s, step)
    ensures Ref(Take(s, step)) == RTake(Ref(s), step)
  {
    hide Identify, Handle, RHandle, Inv;
    match step
    case Connect(fd) => RefConnect(s, fd);
    case Disconnect(fd) => RefDrop(s, fd);
    case Do(fd, request) => RefHandle(s, fd, request);
  }

  /** The reference server after the same run. */
  ghost function RAfter(password: string, run: seq<Step>): RState {
    if run == [] then RState(password, map[], map[], 0)
    else
      var r := RAfter(password, run[..|run| - 1]);
      var step := run[|run| - 1];
      if step.Connect? != (step.fd in r.clients) then RTake(r, step) else r
  }

  /**
    Refinement over every run: both servers have the same clients, with the same nicks,
    flags and outboxes, the same channels with the same members and operator flags by
    identity, and the same operator count.
   */
  lemma {:induction false} Refines(password: string, run: seq<Step>)
    requires LegalRun(password, run)
    ensures Ref(After(password, run)) == RAfter(password, run)
  {
    hide Take, RTake, Identify;
    if run != [] {
      var was := run[..|run| - 1];
      Refines(password, was);
      ReachableInv(password, was);
      RefTake(After(password, was), run[|run| - 1]);
    } else {
      assert Ref(After(password, run)).channels == map[];
    }
  }
}
