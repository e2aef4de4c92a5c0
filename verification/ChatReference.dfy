/**
  The reference server: channels hold user identities, a nick is only a label, and a
  rename changes nothing but the label.
 */
module ChatReference {
  import opened Optional
  import opened ChatState

  datatype RState = RState(password: string, clients: map<Fd, Client>, channels: map<Name, map<Fd, bool>>, ops: nat)

  predicate Holds(clients: map<Fd, Client>, x: Fd, nick: Nick) {
    x in clients && clients[x].nick == Some(nick)
  }

  ghost predicate InUse(clients: map<Fd, Client>, nick: Nick) {
    exists x :: Holds(clients, x, nick)
  }

  /** The user with this label. */
  ghost function Who(clients: map<Fd, Client>, nick: Nick): Fd
    requires InUse(clients, nick)
  {
    var x :| Holds(clients, x, nick); x
  }

  function RSend(r: RState, fd: Fd, reply: Reply): RState
    requires fd in r.clients
  {
    r.(clients := r.clients[fd := Put(r.clients[fd], reply)])
  }

  /** One copy to each member, the skipped one excepted. */
  function RNotify(r: RState, members: map<Fd, bool>, skip: Option<Fd>, reply: Reply): RState {
    r.(clients := map x | x in r.clients ::
      if x in members && Some(x) != skip then Put(r.clients[x], reply) else r.clients[x])
  }

  function RLusers(r: RState): Code {
    Lusers(Count(r.clients, RegisteredConn), r.ops, Count(r.clients, UnknownConn), |r.channels|,
           Count(r.clients, UserConn) + Count(r.clients, RegisteredConn))
  }

  function RTryRegister(r: RState, fd: Fd): RState
    requires fd in r.clients
  {
    var c := r.clients[fd];
    if c.nick.Some? && c.username.Some? then
      var c' := Put(Advance(c.(registered := true), RegisteredConn), Welcome(c.nick.value));
      var r1 := r.(clients := r.clients[fd := c']);
      RSend(r1, fd, Numeric(c.nick.value, RLusers(r1)))
    else r.(clients := r.clients[fd := Advance(c, UserConn)])
  }

  /** The channels two users share. */
  function RShared(channels: map<Name, map<Fd, bool>>, fd: Fd, x: Fd): set<Name> {
    set c | c in channels && fd in channels[c] && x in channels[c]
  }

  /** The label changes; every member of a shared channel hears of it once per channel. */
  function RRename(r: RState, fd: Fd, was: Nick, now: Nick): RState
    requires fd in r.clients
  {
    var clients := r.clients[fd := r.clients[fd].(nick := Some(now))];
    r.(clients := map x | x in clients ::
      clients[x].(outbox := clients[x].outbox + Repeat(Renamed(was, now), |RShared(r.channels, fd, x)|)))
  }

  ghost function RNick(r: RState, fd: Fd, params: seq<string>): RState
    requires fd in r.clients
  {
    var c := r.clients[fd];
    if |params| < 1 then RSend(r, fd, Numeric(Label(c), NoNickGiven))
    else if params[0] == "" then r
    else if InUse(r.clients, params[0]) then RSend(r, fd, Numeric(Label(c), NickInUse(params[0])))
    else if c.registered && c.nick.Some? then RRename(r, fd, c.nick.value, params[0])
    else RTryRegister(r.(clients := r.clients[fd := c.(nick := Some(params[0]))]), fd)
  }

  function RUser(r: RState, fd: Fd, params: seq<string>): RState
    requires fd in r.clients
  {
    var c := r.clients[fd];
    if c.registered then RSend(r, fd, Numeric(Label(c), AlreadyRegistered))
    else if |params| < 4 then RSend(r, fd, Numeric(Label(c), NeedMoreParams("USER")))
    else RTryRegister(r.(clients := r.clients[fd := c.(username := Some(params[0]))]), fd)
  }

  function RJoin(r: RState, fd: Fd, nick: Nick, params: seq<string>): RState
    requires fd in r.clients
  {
    if |params| < 1 then RSend(r, fd, Numeric(nick, NeedMoreParams("JOIN")))
    else if params[0] == "" then r
    else
      var name := params[0];
      var members := if name in r.channels then r.channels[name] else map[];
      if fd in members then r
      else
        var joined := members[fd := name !in r.channels];
        var r1 := RNotify(r.(channels := r.channels[name := joined]), joined, None, Joined(nick, name));
        RSend(r1, fd, Numeric(nick, Names(name)))
  }

  function RPart(r: RState, fd: Fd, nick: Nick, params: seq<string>, longlast: bool): RState
    requires fd in r.clients
  {
    if |params| < 1 then RSend(r, fd, Numeric(nick, NeedMoreParams("PART")))
    else
      var name := params[0];
      if name !in r.channels then RSend(r, fd, Numeric(nick, NoSuchChannel(name)))
      else if fd !in r.channels[name] then RSend(r, fd, Numeric(nick, NotOnChannel(name)))
      else
        var rest := r.channels[name] - {fd};
        var reply := Parted(nick, name, if longlast && |params| > 1 then Some(params[1]) else None);
        var r1 := RSend(r, fd, reply);
        if rest == map[] then r1.(channels := r1.channels - {name})
        else RNotify(r1.(channels := r1.channels[name := rest]), rest, None, reply)
  }

  ghost function RMode(r: RState, fd: Fd, nick: Nick, params: seq<string>): RState
    requires fd in r.clients
  {
    if |params| < 3 then RSend(r, fd, Numeric(nick, NeedMoreParams("MODE")))
    else
      var name, mode, target := params[0], params[1], params[2];
      if name !in r.channels then RSend(r, fd, Numeric(nick, NoSuchChannel(name)))
      else if mode != "-o" && mode != "+o" then RSend(r, fd, Numeric(nick, UnknownMode(mode)))
      else
        var members := r.channels[name];
        if !InUse(r.clients, target) || Who(r.clients, target) !in members then
          RSend(r, fd, Numeric(nick, UserNotInChannel(target, name)))
        else if r.clients[fd].oper || (fd in members && members[fd]) then
          var changed := members[Who(r.clients, target) := mode == "+o"];
          RNotify(r.(channels := r.channels[name := changed]), changed, None, ModeSet(nick, name, mode, target))
        else RSend(r, fd, Numeric(nick, ChanOpNeeded(name)))
  }

  function ROper(r: RState, fd: Fd, nick: Nick, params: seq<string>): RState
    requires fd in r.clients
  {
    if |params| < 2 then RSend(r, fd, Numeric(nick, NeedMoreParams("OPER")))
    else if params[1] != r.password then RSend(r, fd, Numeric(nick, PasswordMismatch))
    else
      var r1 := r.(ops := r.ops + 1, clients := r.clients[fd := r.clients[fd].(oper := true)]);
      RSend(r1, fd, Numeric(nick, YouAreOper))
  }

  ghost function RPrivmsg(r: RState, fd: Fd, nick: Nick, params: seq<string>, longlast: bool): RState
    requires fd in r.clients
  {
    if |params| < 1 then RSend(r, fd, Numeric(nick, NoRecipient))
    else if !longlast then RSend(r, fd, Numeric(nick, NoTextToSend))
    else
      var target := params[0];
      var reply := Said(nick, target, params[|params| - 1]);
      if IsUserTarget(target) then
        if InUse(r.clients, target) then RSend(r, Who(r.clients, target), reply)
        else RSend(r, fd, Numeric(nick, NoSuchNick(target)))
      else if target !in r.channels then RSend(r, fd, Numeric(nick, NoSuchNick(target)))
      else if fd !in r.channels[target] then RSend(r, fd, Numeric(nick, CannotSend(target)))
      else RNotify(r, r.channels[target], Some(fd), reply)
  }

  ghost function RRegistered(r: RState, fd: Fd, nick: Nick, request: Request): RState
    requires fd in r.clients
  {
    match request
    case JOIN(params) => RJoin(r, fd, nick, params)
    case PART(params, longlast) => RPart(r, fd, nick, params, longlast)
    case MODE(params) => RMode(r, fd, nick, params)
    case OPER(params) => ROper(r, fd, nick, params)
    case PRIVMSG(params, longlast) => RPrivmsg(r, fd, nick, params, longlast)
    case LUSERS => RSend(r, fd, Numeric(nick, RLusers(r)))
    case _ => r
  }

  ghost function RHandle(r: RState, fd: Fd, request: Request): RState
    requires fd in r.clients
  {
    match request
    case NICK(params) => RNick(r, fd, params)
    case USER(params) => RUser(r, fd, params)
    case _ =>
      if r.clients[fd].registered && r.clients[fd].nick.Some? then
        RRegistered(r, fd, r.clients[fd].nick.value, request)
      else RSend(r, fd, Numeric(Label(r.clients[fd]), NotRegistered))
  }

  ghost function RTake(r: RState, step: Step): RState
    requires if step.Connect? then step.fd !in r.clients else step.fd in r.clients
  {
    match step
    case Connect(fd) => r.(clients := r.clients[fd := NEW_CLIENT])
    case Disconnect(fd) => r.(clients := r.clients - {fd})
    case Do(fd, request) => RHandle(r, fd, request)
  }
}
