/**
  The server as a value, keyed the way its tables are: users by nick, channel members
  by nick, connections by socket. One handler call is one step.
 */
module ChatState {
  import opened Optional

  type Fd = int
  type Nick = string
  type Name = string

  datatype Conn = UnknownConn | UserConn | RegisteredConn

  /** Numeric replies by kind; their wording is not modelled. */
  datatype Code =
    | NoNickGiven | NickInUse(nick: Nick) | AlreadyRegistered | NeedMoreParams(cmd: string) | NotRegistered
    | NoRecipient | NoTextToSend | NoSuchNick(target: string) | CannotSend(name: Name)
    | NoSuchChannel(name: Name) | NotOnChannel(name: Name) | UnknownMode(mode: string)
    | UserNotInChannel(nick: Nick, name: Name) | ChanOpNeeded(name: Name)
    | PasswordMismatch | YouAreOper
    | Lusers(registered: nat, operators: nat, unknown: nat, channels: nat, known: nat)
    | Names(name: Name)

  /** A numeric reply names the client it goes to, a message the client it comes from. */
  datatype Reply =
    | Numeric(to: Nick, code: Code)
    | Welcome(nick: Nick)
    | Said(from: Nick, target: string, text: string)
    | Renamed(was: Nick, now: Nick)
    | Joined(nick: Nick, name: Name)
    | Parted(nick: Nick, name: Name, farewell: Option<string>)
    | ModeSet(setter: Nick, name: Name, mode: string, target: Nick)

  /** A user record and its connection, with everything sent to it so far. */
  datatype Client = Client(nick: Option<Nick>, username: Option<string>, registered: bool, oper: bool,
                           conn: Conn, outbox: seq<Reply>)

  datatype State = State(password: string, users: map<Nick, Fd>, clients: map<Fd, Client>,
                         channels: map<Name, map<Nick, bool>>, ops: nat)

  datatype Request =
    | NICK(params: seq<string>)
    | USER(params: seq<string>)
    | JOIN(params: seq<string>)
    | PART(params: seq<string>, longlast: bool)
    | MODE(params: seq<string>)
    | OPER(params: seq<string>)
    | PRIVMSG(params: seq<string>, longlast: bool)
    | LUSERS

  datatype Step = Connect(fd: Fd) | Disconnect(fd: Fd) | Do(fd: Fd, request: Request)

  function Initial(password: string): State {
    State(password, map[], map[], map[], 0)
  }

  // ---- sending ---------------------------------------------------------------

  function Repeat(r: Reply, n: nat): seq<Reply> {
    seq(n, _ => r)
  }

  function Put(c: Client, r: Reply): Client {
    c.(outbox := c.outbox + [r])
  }

  /** A reply to one client. */
  function Send(s: State, fd: Fd, r: Reply): State
    requires fd in s.clients
  {
    s.(clients := s.clients[fd := Put(s.clients[fd], r)])
  }

  /** Client x is reached through one of the member nicks, the skipped one excepted. */
  predicate Reaches(users: map<Nick, Fd>, members: map<Nick, bool>, skip: Option<Nick>, x: Fd) {
    exists n :: n in members && Some(n) != skip && n in users && users[n] == x
  }

  /** notify_all_channel_members. */
  function Notify(s: State, members: map<Nick, bool>, skip: Option<Nick>, r: Reply): State {
    s.(clients := map x | x in s.clients ::
      if Reaches(s.users, members, skip, x) then Put(s.clients[x], r) else s.clients[x])
  }

  // ---- the handlers ----------------------------------------------------------

  function Count(clients: map<Fd, Client>, conn: Conn): nat {
    |set x | x in clients && clients[x].conn == conn|
  }

  /** handler_LUSERS, on the connection states. */
  function LusersReply(s: State): Code {
    Lusers(Count(s.clients, RegisteredConn), s.ops, Count(s.clients, UnknownConn), |s.channels|,
           Count(s.clients, UserConn) + Count(s.clients, RegisteredConn))
  }

  /** modify_connection_state. */
  function Advance(c: Client, conn: Conn): Client {
    if c.conn == RegisteredConn then c else c.(conn := conn)
  }

  /** After NICK or USER of an unregistered client: register and welcome it once both are set. */
  function TryRegister(s: State, fd: Fd): State
    requires fd in s.clients
  {
    var c := s.clients[fd];
    if c.nick.Some? && c.username.Some? then
      var c' := Put(Advance(c.(registered := true), RegisteredConn), Welcome(c.nick.value));
      var s1 := s.(clients := s.clients[fd := c']);
      Send(s1, fd, Numeric(c.nick.value, LusersReply(s1)))
    else s.(clients := s.clients[fd := Advance(c, UserConn)])
  }

  /** update_member_nick. */
  function RenameMember(members: map<Nick, bool>, was: Nick, now: Nick): map<Nick, bool> {
    if was in members then (members - {was})[now := members[was]] else members
  }

  /** update_nick_on_channel. */
  function RenameEverywhere(channels: map<Name, map<Nick, bool>>, was: Nick, now: Nick): map<Name, map<Nick, bool>> {
    map c | c in channels :: RenameMember(channels[c], was, now)
  }

  /** The channels of a user through which client x is reached. */
  function Shared(users: map<Nick, Fd>, channels: map<Name, map<Nick, bool>>, nick: Nick, x: Fd): set<Name> {
    set c | c in channels && nick in channels[c] && Reaches(users, channels[c], None, x)
  }

  /** handler_NICK of a registered client, the new nick being free. */
  function Rename(s: State, fd: Fd, was: Nick, now: Nick): State
    requires fd in s.clients
  {
    var channels := RenameEverywhere(s.channels, was, now);
    var users := (s.users - {was})[now := fd];
    var clients := s.clients[fd := s.clients[fd].(nick := Some(now))];
    s.(users := users, channels := channels, clients := map x | x in clients ::
      clients[x].(outbox := clients[x].outbox + Repeat(Renamed(was, now), |Shared(users, channels, now, x)|)))
  }

  /** What a client without a nick is called. */
  function Label(c: Client): Nick {
    if c.nick.Some? then c.nick.value else "*"
  }

  function HandleNick(s: State, fd: Fd, params: seq<string>): State
    requires fd in s.clients
  {
    var c := s.clients[fd];
    if |params| < 1 then Send(s, fd, Numeric(Label(c), NoNickGiven))
    else if params[0] == "" then s
    else if params[0] in s.users then Send(s, fd, Numeric(Label(c), NickInUse(params[0])))
    else if c.registered && c.nick.Some? then Rename(s, fd, c.nick.value, params[0])
    else TryRegister(s.(users := s.users[params[0] := fd], clients := s.clients[fd := c.(nick := Some(params[0]))]), fd)
  }

  /** A reply to a USER that sets no name formats the nick, whether there is one or not. */
  predicate UserLacksNick(c: Client, params: seq<string>) {
    (c.registered || |params| < 4) && c.nick == None
  }

  function HandleUser(s: State, fd: Fd, params: seq<string>): State
    requires fd in s.clients && !UserLacksNick(s.clients[fd], params)
  {
    var c := s.clients[fd];
    if c.registered then Send(s, fd, Numeric(c.nick.value, AlreadyRegistered))
    else if |params| < 4 then Send(s, fd, Numeric(c.nick.value, NeedMoreParams("USER")))
    else TryRegister(s.(clients := s.clients[fd := c.(username := Some(params[0]))]), fd)
  }

  function HandleJoin(s: State, fd: Fd, nick: Nick, params: seq<string>): State
    requires fd in s.clients
  {
    if |params| < 1 then Send(s, fd, Numeric(nick, NeedMoreParams("JOIN")))
    else if params[0] == "" then s
    else
      var name := params[0];
      var members := if name in s.channels then s.channels[name] else map[];
      if nick in members then s
      else
        var joined := members[nick := name !in s.channels];
        var s1 := Notify(s.(channels := s.channels[name := joined]), joined, None, Joined(nick, name));
        Send(s1, fd, Numeric(nick, Names(name)))
  }

  /** A member's PART whose only parameter is the trailing one: the reply formats a second. */
  predicate PartLacksFarewell(s: State, nick: Nick, params: seq<string>, longlast: bool) {
    longlast && |params| == 1 && params[0] in s.channels && nick in s.channels[params[0]]
  }

  function HandlePart(s: State, fd: Fd, nick: Nick, params: seq<string>, longlast: bool): State
    requires fd in s.clients && !PartLacksFarewell(s, nick, params, longlast)
  {
    if |params| < 1 then Send(s, fd, Numeric(nick, NeedMoreParams("PART")))
    else
      var name := params[0];
      if name !in s.channels then Send(s, fd, Numeric(nick, NoSuchChannel(name)))
      else if nick !in s.channels[name] then Send(s, fd, Numeric(nick, NotOnChannel(name)))
      else
        var rest := s.channels[name] - {nick};
        var r := Parted(nick, name, if longlast then Some(params[1]) else None);
        var s1 := Send(s, fd, r);
        if rest == map[] then s1.(channels := s1.channels - {name})
        else Notify(s1.(channels := s1.channels[name := rest]), rest, None, r)
  }

  function HandleMode(s: State, fd: Fd, nick: Nick, params: seq<string>): State
    requires fd in s.clients
  {
    if |params| < 3 then Send(s, fd, Numeric(nick, NeedMoreParams("MODE")))
    else
      var name, mode, target := params[0], params[1], params[2];
      if name !in s.channels then Send(s, fd, Numeric(nick, NoSuchChannel(name)))
      else if mode != "-o" && mode != "+o" then Send(s, fd, Numeric(nick, UnknownMode(mode)))
      else
        var members := s.channels[name];
        if target !in members then Send(s, fd, Numeric(nick, UserNotInChannel(target, name)))
        else if s.clients[fd].oper || (nick in members && members[nick]) then
          var changed := members[target := mode == "+o"];
          Notify(s.(channels := s.channels[name := changed]), changed, None, ModeSet(nick, name, mode, target))
        else Send(s, fd, Numeric(nick, ChanOpNeeded(name)))
  }

  function HandleOper(s: State, fd: Fd, nick: Nick, params: seq<string>): State
    requires fd in s.clients
  {
    if |params| < 2 then Send(s, fd, Numeric(nick, NeedMoreParams("OPER")))
    else if params[1] != s.password then Send(s, fd, Numeric(nick, PasswordMismatch))
    else
      var s1 := s.(ops := s.ops + 1, clients := s.clients[fd := s.clients[fd].(oper := true)]);
      Send(s1, fd, Numeric(nick, YouAreOper))
  }

  /** A target that is not a channel name. */
  predicate IsUserTarget(target: string) {
    target == "" || target[0] != '#'
  }

  function HandlePrivmsg(s: State, fd: Fd, nick: Nick, params: seq<string>, longlast: bool): State
    requires fd in s.clients
  {
    if |params| < 1 then Send(s, fd, Numeric(nick, NoRecipient))
    else if !longlast then Send(s, fd, Numeric(nick, NoTextToSend))
    else
      var target := params[0];
      var r := Said(nick, target, params[|params| - 1]);
      if IsUserTarget(target) then
        if target in s.users && s.users[target] in s.clients then Send(s, s.users[target], r)
        else Send(s, fd, Numeric(nick, NoSuchNick(target)))
      else if target !in s.channels then Send(s, fd, Numeric(nick, NoSuchNick(target)))
      else if nick !in s.channels[target] then Send(s, fd, Numeric(nick, CannotSend(target)))
      else Notify(s, s.channels[target], Some(nick), r)
  }

  /** Commands other than NICK and USER are for registered clients. */
  function HandleRegistered(s: State, fd: Fd, nick: Nick, request: Request): State
    requires fd in s.clients
    requires request.PART? ==> !PartLacksFarewell(s, nick, request.params, request.longlast)
  {
    match request
    case JOIN(params) => HandleJoin(s, fd, nick, params)
    case PART(params, longlast) => HandlePart(s, fd, nick, params, longlast)
    case MODE(params) => HandleMode(s, fd, nick, params)
    case OPER(params) => HandleOper(s, fd, nick, params)
    case PRIVMSG(params, longlast) => HandlePrivmsg(s, fd, nick, params, longlast)
    case LUSERS => Send(s, fd, Numeric(nick, LusersReply(s)))
    case _ => s
  }

  function Handle(s: State, fd: Fd, request: Request): State
    requires fd in s.clients && !Crashes(s, Do(fd, request))
  {
    match request
    case NICK(params) => HandleNick(s, fd, params)
    case USER(params) => HandleUser(s, fd, params)
    case _ =>
      if s.clients[fd].registered && s.clients[fd].nick.Some? then
        HandleRegistered(s, fd, s.clients[fd].nick.value, request)
      else Send(s, fd, Numeric(Label(s.clients[fd]), NotRegistered))
  }

  const NEW_CLIENT := Client(None, None, false, false, UnknownConn, [])

  /** The user table is not empty where a record without a nick is deleted from it. */
  predicate Droppable(s: State, fd: Fd) {
    fd in s.clients && (s.clients[fd].nick.Some? || s.users != map[])
  }

  /**
    free_data: the record leaves the user table and the connection table, not the channels.
    A record that never got a nick has null links, as if it were the only item of the user
    table: deleting it frees the whole table.
   */
  function Drop(s: State, fd: Fd): State
    requires Droppable(s, fd)
  {
    s.(clients := s.clients - {fd},
       users := if s.clients[fd].nick.Some? then s.users - {s.clients[fd].nick.value} else map[])
  }

  /**
    The code follows or formats a null pointer: deleting a record without a nick from an
    empty user table, a reply to USER naming a client without a nick, and a reply to PART
    quoting a parameter that is not there.
   */
  predicate Crashes(s: State, step: Step) {
    && !step.Connect? && step.fd in s.clients
    && match step
       case Disconnect(fd) => !Droppable(s, fd)
       case Do(fd, USER(params)) => UserLacksNick(s.clients[fd], params)
       case Do(fd, PART(params, longlast)) =>
         && s.clients[fd].registered && s.clients[fd].nick.Some?
         && PartLacksFarewell(s, s.clients[fd].nick.value, params, longlast)
       case _ => false
  }

  function Take(s: State, step: Step): State
    requires Present(s, step) && !Crashes(s, step)
  {
    match step
    case Connect(fd) => s.(clients := s.clients[fd := NEW_CLIENT])
    case Disconnect(fd) => Drop(s, fd)
    case Do(fd, request) => Handle(s, fd, request)
  }

  /** Sockets in use are distinct, and only connected clients act. */
  predicate Present(s: State, step: Step) {
    if step.Connect? then step.fd !in s.clients else step.fd in s.clients
  }
}
