/**
  Where operator flags come from. What happened in a run is read off the requests and
  off what their senders and targets were told; the flags the server holds are the ones
  this log decides, and every change of a flag was authorised by the log before it.
 */
module ChatProvenance {
  import opened Optional
  import opened ChatState
  import opened ChatInvariant
  import opened ChatReference
  import opened ChatRefinement

  datatype Event =
    | Came(who: Fd)
    | Presented(who: Fd, password: string)
    | Created(who: Fd, name: Name)
    | Entered(who: Fd, name: Name)
    | Left(who: Fd, name: Name)
    | Set(who: Fd, name: Name, target: Fd, flag: bool)

  /** Client x received this reply between two states. */
  ghost predicate Told(r: RState, r': RState, x: Fd, reply: Reply) {
    && x in r.clients && x in r'.clients && |r.clients[x].outbox| <= |r'.clients[x].outbox|
    && reply in r'.clients[x].outbox[|r.clients[x].outbox|..]
  }

  ghost predicate ToldOfParting(r: RState, r': RState, x: Fd, nick: Nick, name: Name) {
    exists farewell :: Told(r, r', x, Parted(nick, name, farewell))
  }

  /** What happened at a step that led from one state to the other. */
  ghost function EventOf(r: RState, step: Step, r': RState): Option<Event>
    requires !step.Connect? ==> step.fd in r.clients
  {
    match step
    case Connect(fd) => Some(Came(fd))
    case Disconnect(_) => None
    case Do(fd, request) =>
      if !r.clients[fd].registered || r.clients[fd].nick == None then None
      else
        var nick := r.clients[fd].nick.value;
        match request
        case OPER(params) =>
          if |params| >= 2 then Some(Presented(fd, params[1])) else None
        case JOIN(params) =>
          if |params| >= 1 && Told(r, r', fd, Numeric(nick, Names(params[0])))
          then Some(if params[0] in r.channels then Entered(fd, params[0]) else Created(fd, params[0]))
          else None
        case PART(params, _) =>
          if |params| >= 1 && ToldOfParting(r, r', fd, nick, params[0]) then Some(Left(fd, params[0])) else None
        case MODE(params) =>
          if |params| >= 3 && InUse(r.clients, params[2])
            && Told(r, r', Who(r.clients, params[2]), ModeSet(nick, params[0], params[1], params[2]))
          then Some(Set(fd, params[0], Who(r.clients, params[2]), params[1] == "+o"))
          else None
        case _ => None
  }

  /** The events of a run of the server, its states seen by identity. */
  ghost function Log(password: string, run: seq<Step>): seq<Event> {
    if run == [] then []
    else
      var s, step := After(password, run[..|run| - 1]), run[|run| - 1];
      var log := Log(password, run[..|run| - 1]);
      if !Present(s, step) || Crashes(s, step) then log
      else
        var e := EventOf(Ref(s), step, Ref(Take(s, step)));
        if e.Some? then log + [e.value] else log
  }

  // ---- what the log decides --------------------------------------------------

  /** How one event changes the flag of x on a channel; no flag means no member. */
  function Effect(e: Event, flag: Option<bool>, name: Name, x: Fd): Option<bool> {
    match e
    case Created(who, c) => if c == name then (if who == x then Some(true) else None) else flag
    case Entered(who, c) => if c == name && who == x then Some(false) else flag
    case Left(who, c) => if c == name && who == x then None else flag
    case Set(_, c, target, b) => if c == name && target == x then Some(b) else flag
    case _ => flag
  }

  /** The flag the latest event about x on this channel left, a creation starting afresh. */
  function LogFlag(log: seq<Event>, name: Name, x: Fd): Option<bool> {
    if log == [] then None else Effect(log[|log| - 1], LogFlag(log[..|log| - 1], name, x), name, x)
  }

  /** Since it came, x presented the server password. */
  predicate LogOper(log: seq<Event>, password: string, x: Fd) {
    log != [] &&
    var e := log[|log| - 1];
    if e == Presented(x, password) then true
    else if e == Came(x) then false
    else LogOper(log[..|log| - 1], password, x)
  }

  /** A change of a flag is made by an operator of the channel or by a server operator. */
  predicate Authorised(log: seq<Event>, password: string, e: Event) {
    e.Set? ==> LogFlag(log, e.name, e.who) == Some(true) || LogOper(log, password, e.who)
  }

  // ---- what the server holds -------------------------------------------------

  function Flag(r: RState, name: Name, x: Fd): Option<bool> {
    if name in r.channels && x in r.channels[name] then Some(r.channels[name][x]) else None
  }

  /** Members are clients, and only registered ones. */
  ghost predicate MembersAreClients(r: RState) {
    forall c, x :: c in r.channels && x in r.channels[c] ==> x in r.clients
  }

  ghost predicate FlagsMove(r: RState, step: Step, r': RState)
    requires !step.Connect? ==> step.fd in r.clients
  {
    var e := EventOf(r, step, r');
    forall name, x ::
      Flag(r', name, x) == if e.Some? then Effect(e.value, Flag(r, name, x), name, x) else Flag(r, name, x)
  }

  lemma SentIsTold(r: RState, r': RState, x: Fd, replies: seq<Reply>, reply: Reply)
    requires x in r.clients && x in r'.clients && r'.clients[x].outbox == r.clients[x].outbox + replies
    ensures Told(r, r', x, reply) <==> reply in replies
  {
    assert r'.clients[x].outbox[|r.clients[x].outbox|..] == replies;
  }

  lemma JoinMoves(r: RState, fd: Fd, nick: Nick, params: seq<string>)
    requires fd in r.clients && r.clients[fd].registered && r.clients[fd].nick == Some(nick)
    ensures FlagsMove(r, Do(fd, JOIN(params)), RJoin(r, fd, nick, params))
  {
    var r' := RJoin(r, fd, nick, params);
    if |params| >= 1 {
      var name := params[0];
      var members := if name in r.channels then r.channels[name] else map[];
      if name == "" || fd in members {
        SentIsTold(r, r', fd, [], Numeric(nick, Names(name)));
      } else {
        SentIsTold(r, r', fd, [Joined(nick, name), Numeric(nick, Names(name))], Numeric(nick, Names(name)));
      }
    }
  }

  lemma PartMoves(r: RState, fd: Fd, nick: Nick, params: seq<string>, longlast: bool)
    requires fd in r.clients && r.clients[fd].registered && r.clients[fd].nick == Some(nick)
    ensures FlagsMove(r, Do(fd, PART(params, longlast)), RPart(r, fd, nick, params, longlast))
  {
    var r' := RPart(r, fd, nick, params, longlast);
    if |params| >= 1 {
      var name := params[0];
      if name !in r.channels {
        forall f { SentIsTold(r, r', fd, [Numeric(nick, NoSuchChannel(name))], Parted(nick, name, f)); }
      } else if fd !in r.channels[name] {
        forall f { SentIsTold(r, r', fd, [Numeric(nick, NotOnChannel(name))], Parted(nick, name, f)); }
      } else {
        var reply := Parted(nick, name, if longlast && |params| > 1 then Some(params[1]) else None);
        SentIsTold(r, r', fd, [reply], reply);
        var rest := r.channels[name] - {fd};
        assert forall x :: x in r.channels[name] && x != fd ==> x in rest;
      }
    }
  }

  lemma ModeMoves(r: RState, fd: Fd, nick: Nick, params: seq<string>)
    requires fd in r.clients && r.clients[fd].registered && r.clients[fd].nick == Some(nick) && MembersAreClients(r)
    ensures FlagsMove(r, Do(fd, MODE(params)), RMode(r, fd, nick, params))
  {
    hide InUse, Who, Told, MembersAreClients;
    if |params| >= 3 && InUse(r.clients, params[2]) {
      ModeIsTold(r, fd, nick, params);
    }
  }

  /** The target of a MODE hears of it exactly when the MODE is accepted. */
  lemma ModeIsTold(r: RState, fd: Fd, nick: Nick, params: seq<string>)
    requires fd in r.clients && MembersAreClients(r) && |params| >= 3 && InUse(r.clients, params[2])
    ensures var target := Who(r.clients, params[2]);
      Told(r, RMode(r, fd, nick, params), target, ModeSet(nick, params[0], params[1], params[2])) <==>
        MayMode(r, fd, params[0], params[1], target)
  {
    hide InUse, Who;
  }

  /** Channel and mode are known, the target is a member, the sender an operator of the channel or the server. */
  predicate MayMode(r: RState, fd: Fd, name: Name, mode: string, target: Fd)
    requires fd in r.clients
  {
    && name in r.channels && (mode == "+o" || mode == "-o") && target in r.channels[name]
    && (Flag(r, name, fd) == Some(true) || r.clients[fd].oper)
  }

  /** Only JOIN, PART and MODE of a registered client touch the channels. */
  predicate TouchesChannels(r: RState, fd: Fd, request: Request)
    requires fd in r.clients
  {
    r.clients[fd].registered && r.clients[fd].nick.Some? && (request.JOIN? || request.PART? || request.MODE?)
  }

  lemma OthersKeepChannels(r: RState, fd: Fd, request: Request)
    requires fd in r.clients && !TouchesChannels(r, fd, request)
    ensures RHandle(r, fd, request).channels == r.channels
  {
    hide RLusers, Who, InUse, RShared;
  }

  lemma RequestMoves(r: RState, fd: Fd, request: Request)
    requires fd in r.clients && MembersAreClients(r)
    ensures FlagsMove(r, Do(fd, request), RHandle(r, fd, request))
  {
    hide RJoin, RPart, RMode, RPrivmsg, RNick, RUser, ROper, RSend, RLusers,
      Told, InUse, Who, ToldOfParting, MembersAreClients;
    if TouchesChannels(r, fd, request) {
      var nick := r.clients[fd].nick.value;
      match request {
        case JOIN(params) => JoinMoves(r, fd, nick, params);
        case PART(params, longlast) => PartMoves(r, fd, nick, params, longlast);
        case MODE(params) => ModeMoves(r, fd, nick, params);
      }
    } else {
      OthersKeepChannels(r, fd, request);
    }
  }

  /** Every legal step moves the flags as its event says. */
  lemma TakeMoves(s: State, step: Step)
    requires Inv(s) && Legal(s, step)
    ensures FlagsMove(Ref(s), step, Ref(Take(s, step)))
  {
    hide Identify, RHandle, Take, Inv;
    RefTake(s, step);
    match step
    case Connect(fd) =>
    case Disconnect(fd) => NotAMember(s, fd);
    case Do(fd, request) =>
      MembersKnown(s);
      RequestMoves(Ref(s), fd, request);
  }

  lemma MembersKnown(s: State)
    ensures MembersAreClients(Ref(s))
  {
  }

  lemma NotAMember(s: State, fd: Fd)
    requires fd in s.clients && MayLeave(s, fd)
    ensures forall c :: c in Ref(s).channels ==> fd !in Ref(s).channels[c]
  {
  }

  // ---- server operators ------------------------------------------------------

  /** A step makes an operator of the client that presents the server password, and of nobody else. */
  ghost predicate OpersMove(r: RState, step: Step, r': RState)
    requires !step.Connect? ==> step.fd in r.clients
  {
    var e := EventOf(r, step, r');
    && r'.password == r.password
    && forall x :: x in r'.clients ==>
         if e == Some(Came(x)) then !r'.clients[x].oper
         else x in r.clients && r'.clients[x].oper == (r.clients[x].oper || e == Some(Presented(x, r.password)))
  }

  ghost predicate SameOpers(r: RState, r': RState) {
    && r'.password == r.password && r'.ops == r.ops
    && (forall x :: x in r'.clients <==> x in r.clients)
    && forall x :: x in r'.clients ==> r'.clients[x].oper == r.clients[x].oper
  }

  lemma OthersKeepOpers(r: RState, fd: Fd, nick: Nick, request: Request)
    requires fd in r.clients && !request.OPER?
    ensures SameOpers(r, RRegistered(r, fd, nick, request))
  {
    hide RLusers;
  }

  lemma NamesKeepOpers(r: RState, fd: Fd, params: seq<string>)
    requires fd in r.clients
    ensures SameOpers(r, RNick(r, fd, params)) && SameOpers(r, RUser(r, fd, params))
  {
    hide RLusers, RShared;
  }

  lemma RequestMovesOpers(r: RState, fd: Fd, request: Request)
    requires fd in r.clients
    ensures OpersMove(r, Do(fd, request), RHandle(r, fd, request))
  {
    hide InUse, Who, Told, ToldOfParting, RNick, RUser, RJoin, RPart, RMode, RPrivmsg, RLusers;
    NamesKeepOpers(r, fd, if request.LUSERS? then [] else request.params);
    if r.clients[fd].registered && r.clients[fd].nick.Some? && !request.OPER? {
      OthersKeepOpers(r, fd, r.clients[fd].nick.value, request);
    }
  }

  lemma TakeMovesOpers(s: State, step: Step)
    requires Inv(s) && Legal(s, step)
    ensures OpersMove(Ref(s), step, Ref(Take(s, step)))
  {
    hide Identify, RHandle, Take, Inv;
    RefTake(s, step);
    match step
    case Connect(fd) =>
    case Disconnect(fd) =>
    case Do(fd, request) => RequestMovesOpers(Ref(s), fd, request);
  }

  // ---- who may change a flag -------------------------------------------------

  /** A MODE is an event of the log exactly when its sender may set the mode. */
  lemma ModeIsAuthorised(r: RState, fd: Fd, nick: Nick, params: seq<string>)
    requires fd in r.clients && r.clients[fd].registered && r.clients[fd].nick == Some(nick) && MembersAreClients(r)
    requires |params| >= 3
    ensures EventOf(r, Do(fd, MODE(params)), RMode(r, fd, nick, params)).Some? <==>
      InUse(r.clients, params[2]) && MayMode(r, fd, params[0], params[1], Who(r.clients, params[2]))
  {
    hide InUse, Who, Told, RMode, MayMode, MembersAreClients;
    if InUse(r.clients, params[2]) {
      ModeIsTold(r, fd, nick, params);
    }
  }

  lemma EventIsAuthorised(s: State, step: Step)
    requires Inv(s) && Legal(s, step)
    ensures var e := EventOf(Ref(s), step, Ref(Take(s, step)));
      e.Some? && e.value.Set? ==>
        && e.value.who in s.clients
        && (Flag(Ref(s), e.value.name, e.value.who) == Some(true) || s.clients[e.value.who].oper)
  {
    hide Identify, Take, Inv, Told, ToldOfParting, InUse, Who, RSend, RLusers,
      RMode, RJoin, RPart, RPrivmsg, RNick, RUser, ROper;
    if step.Do? && step.request.MODE? {
      var r := Ref(s);
      RefTake(s, step);
      MembersKnown(s);
      if r.clients[step.fd].registered && r.clients[step.fd].nick.Some? && |step.request.params| >= 3 {
        ModeIsAuthorised(r, step.fd, r.clients[step.fd].nick.value, step.request.params);
      }
    }
  }

  /**
    The log accounts for the flags and operators of a state: a member's flag is what its
    latest create, join or accepted mode event left, whatever nicks were taken since; an
    operator is a client that presented the password since it came; and whoever changed a
    flag had the right to.
   */
  ghost predicate Explains(log: seq<Event>, password: string, r: RState) {
    && r.password == password
    && (forall name, x :: Flag(r, name, x) == LogFlag(log, name, x))
    && (forall x :: x in r.clients ==> r.clients[x].oper == LogOper(log, password, x))
    && (forall i :: 0 <= i < |log| ==> Authorised(log[..i], password, log[i]))
  }

  lemma AuthorisedOn(log: seq<Event>, password: string, e: Event)
    requires Authorised(log, password, e) && forall i :: 0 <= i < |log| ==> Authorised(log[..i], password, log[i])
    ensures forall i :: 0 <= i < |log + [e]| ==> Authorised((log + [e])[..i], password, (log + [e])[i])
  {
    hide Authorised;
    forall i | 0 <= i < |log + [e]|
      ensures Authorised((log + [e])[..i], password, (log + [e])[i])
    {
      assert (log + [e])[..i] == if i < |log| then log[..i] else log;
    }
  }

  lemma ExplainsOn(log: seq<Event>, password: string, r: RState, step: Step, r': RState)
    requires Explains(log, password, r) && (!step.Connect? ==> step.fd in r.clients)
    requires FlagsMove(r, step, r') && OpersMove(r, step, r')
    requires var e := EventOf(r, step, r');
      e.Some? && e.value.Set? ==>
        e.value.who in r.clients && (Flag(r, e.value.name, e.value.who) == Some(true) || r.clients[e.value.who].oper)
    ensures var e := EventOf(r, step, r');
      Explains(if e.Some? then log + [e.value] else log, password, r')
  {
    hide EventOf;
    var e := EventOf(r, step, r');
    if e.Some? {
      var log' := log + [e.value];
      assert log'[..|log'| - 1] == log;
      assert Authorised(log, password, e.value);
      AuthorisedOn(log, password, e.value);
    }
  }

  /** Operator provenance, over every run. */
  lemma {:induction false} Provenance(password: string, run: seq<Step>)
    requires LegalRun(password, run)
    ensures Explains(Log(password, run), password, Ref(After(password, run)))
  {
    hide EventOf, Take, Legal, Inv, Explains;
    if run == [] {
      NothingToExplain(password);
    } else {
      var was, step := run[..|run| - 1], run[|run| - 1];
      var s := After(password, was);
      Provenance(password, was);
      ReachableInv(password, was);
      LegalIsPresent(s, step);
      TakeMoves(s, step);
      TakeMovesOpers(s, step);
      EventIsAuthorised(s, step);
      ExplainsOn(Log(password, was), password, Ref(s), step, Ref(Take(s, step)));
    }
  }

  lemma NothingToExplain(password: string)
    ensures Explains([], password, Ref(Initial(password)))
  {
  }
}
