/**
  The server's tables and the records in them. The ghost fields say what they stand for;
  every method says what becomes of the state Model.
 */
module ChatContext {
  import opened Optional
  import opened OrderedTable
  import opened ChatState
  import opened ChatKeys
  import opened ChatInvariant
  import opened ChatRefinement
  import opened ChatObjects
  import opened ChatLoops

  const SUCCESS := 0
  const FAILURE := -1
  const NICK_IN_USE := 1

  // ---- the tables as values --------------------------------------------------

  /** The user table files the records of connected clients under the nicks in use. */
  ghost predicate UsersOk(users: Table<Nick, User>, ids: map<Nick, Fd>, clients: map<Fd, User>) {
    && users.Ok()
    && (forall n :: n in users.entries <==> n in ids)
    && (forall n :: n in users.entries ==> users.entries[n].clientFd == ids[n] && Known(clients, users.entries[n]))
  }

  /** The record is that of a connected client. */
  ghost predicate Known(clients: map<Fd, User>, u: User) {
    u.clientFd in clients && clients[u.clientFd] == u
  }

  ghost predicate SameKeys(connections: Table<Fd, Connection>, clients: map<Fd, User>, records: map<Fd, Client>) {
    connections.Ok() && connections.entries.Keys == clients.Keys == records.Keys
  }

  lemma UsersAdd(users: Table<Nick, User>, ids: map<Nick, Fd>, clients: map<Fd, User>, nick: Nick, u: User)
    requires UsersOk(users, ids, clients) && Known(clients, u) && nick !in ids
    ensures nick !in users.entries && users.Ok() && UsersOk(users.Add(nick, u), ids[nick := u.clientFd], clients)
  {
  }

  lemma UsersRemove(users: Table<Nick, User>, ids: map<Nick, Fd>, clients: map<Fd, User>, nick: Nick)
    requires UsersOk(users, ids, clients) && nick in ids
    ensures nick in users.entries && users.Ok() && UsersOk(users.Remove(nick), ids - {nick}, clients)
  {
  }

  lemma UsersConnect(users: Table<Nick, User>, ids: map<Nick, Fd>, clients: map<Fd, User>, u: User)
    requires UsersOk(users, ids, clients) && u.clientFd !in clients
    ensures UsersOk(users, ids, clients[u.clientFd := u])
  {
  }

  lemma NoUsers(clients: map<Fd, User>)
    ensures UsersOk(Table([], map[]), map[], clients)
  {
  }

  lemma UsersDisconnect(users: Table<Nick, User>, ids: map<Nick, Fd>, clients: map<Fd, User>, fd: Fd)
    requires UsersOk(users, ids, clients) && forall n :: n in ids ==> ids[n] != fd
    ensures UsersOk(users, ids, clients - {fd})
  {
  }

  lemma ClientKeys(connections: Table<Fd, Connection>, clients: map<Fd, User>, records: map<Fd, Client>)
    requires SameKeys(connections, clients, records)
    ensures connections.entries.Keys == clients.Keys == records.Keys
  {
  }

  lemma SameKeysAdd(connections: Table<Fd, Connection>, clients: map<Fd, User>, records: map<Fd, Client>,
                    fd: Fd, k: Connection, u: User, c: Client)
    requires SameKeys(connections, clients, records) && fd !in records
    ensures fd !in connections.entries && fd !in clients && connections.Ok()
    ensures SameKeys(connections.Add(fd, k), clients[fd := u], records[fd := c])
  {
    KeysAdd(connections.entries, records, fd, k, c);
    KeysAdd(clients, records, fd, u, c);
  }

  lemma SameKeysPut(connections: Table<Fd, Connection>, clients: map<Fd, User>, records: map<Fd, Client>,
                    fd: Fd, c: Client)
    requires SameKeys(connections, clients, records) && fd in records
    ensures SameKeys(connections, clients, records[fd := c])
  {
    assert records[fd := c].Keys == records.Keys;
  }

  lemma KeysAdd<K, V, W>(a: map<K, V>, b: map<K, W>, k: K, v: V, w: W)
    requires a.Keys == b.Keys
    ensures a[k := v].Keys == b[k := w].Keys
  {
    assert a[k := v].Keys == a.Keys + {k};
    assert b[k := w].Keys == b.Keys + {k};
  }

  lemma KeysRemove<K, V, W>(a: map<K, V>, b: map<K, W>, k: K)
    requires a.Keys == b.Keys
    ensures (a - {k}).Keys == (b - {k}).Keys
  {
    assert (a - {k}).Keys == a.Keys - {k};
    assert (b - {k}).Keys == b.Keys - {k};
  }

  lemma OneNick(ids: map<Nick, Fd>, clients: map<Fd, Client>, fd: Fd, nick: Nick)
    requires NicksOk(ids, clients) && fd in clients && clients[fd].nick == Some(nick)
    ensures nick in ids && forall n :: n in ids - {nick} ==> (ids - {nick})[n] != fd
  {
  }

  /** A user record and its connection say what the client is. */
  ghost predicate IsClient(fd: Fd, u: User, k: Connection, c: Client)
    reads u`nick, u`username, u`registered, u`isIrcOperator, u`outbox, k`state
  {
    && u.clientFd == fd && u.nick == c.nick && u.username == c.username && u.registered == c.registered
    && u.isIrcOperator == c.oper && u.outbox == c.outbox
    && k.socketNum == fd && k.state == c.conn
  }

  ghost predicate IsRoom(channel: Channel, name: Name, members: map<Nick, bool>)
    reads channel`members
  {
    channel.name == name && channel.members.Ok() && channel.members.entries == members
  }

  class Context {
    var password: string
    var ircOpNum: nat
    var users: Table<Nick, User>
    var connections: Table<Fd, Connection>
    var channels: Table<Name, Channel>

    // the user record each connected client's thread holds
    ghost var clients: map<Fd, User>
    ghost var userIds: map<Nick, Fd>
    ghost var records: map<Fd, Client>
    ghost var rooms: map<Name, map<Nick, bool>>

    /** The state the records stand for. */
    ghost function Model(): State
      reads `password, `ircOpNum, `userIds, `records, `rooms
    {
      State(password, userIds, records, rooms, ircOpNum)
    }

    ghost predicate RecordsAgree()
      reads `connections, `clients, `records, connections.entries.Values`state
      reads clients.Values`nick, clients.Values`username, clients.Values`registered
      reads clients.Values`isIrcOperator, clients.Values`outbox
    {
      forall x :: x in clients ==>
        x in connections.entries && x in records && IsClient(x, clients[x], connections.entries[x], records[x])
    }

    ghost predicate RoomsAgree()
      reads `channels, `rooms, channels.entries.Values`members
    {
      && channels.Ok() && channels.entries.Keys == rooms.Keys
      && forall c :: c in channels.entries ==> IsRoom(channels.entries[c], c, rooms[c])
    }

    ghost predicate Valid()
      reads clients.Values`nick, clients.Values`username, clients.Values`registered
      reads clients.Values`isIrcOperator, clients.Values`outbox
      reads this, connections.entries.Values`state, channels.entries.Values`members
    {
      && UsersOk(users, userIds, clients) && SameKeys(connections, clients, records)
      && RecordsAgree() && RoomsAgree()
    }

    ghost predicate Mine(u: User)
      reads `clients
    {
      Known(clients, u)
    }

    /** The channel in the channel table under this name. */
    ghost predicate Holds(channel: Channel, name: Name)
      reads `channels
    {
      name in channels.entries && channels.entries[name] == channel
    }

    ghost function OtherRooms(name: Name): set<Channel>
      reads `channels
    {
      set c | c in channels.entries && c != name :: channels.entries[c]
    }

    ghost predicate OtherRoomsAgree(name: Name)
      reads `channels, `rooms, OtherRooms(name)`members
    {
      && channels.Ok() && channels.entries.Keys == rooms.Keys
      && forall c :: c in channels.entries && c != name ==> IsRoom(channels.entries[c], c, rooms[c])
    }

    /** What a channel of the table says; the others are not the same object. */
    lemma RoomAt(name: Name)
      requires RoomsAgree() && name in channels.entries
      ensures name in rooms && IsRoom(channels.entries[name], name, rooms[name])
      ensures OtherRoomsAgree(name) && channels.entries[name] !in OtherRooms(name)
    {
    }

    /** What a channel stands for follows its member table. */
    method PutRoom(channel: Channel)
      requires OtherRoomsAgree(channel.name) && Holds(channel, channel.name) && channel.members.Ok()
      modifies `rooms
      ensures RoomsAgree() && rooms == old(rooms)[channel.name := channel.members.entries]
    {
      ghost var before := rooms;
      rooms := rooms[channel.name := channel.members.entries];
      assert rooms.Keys == before.Keys + {channel.name};
    }

    constructor (password: string)
      ensures Valid() && Model() == Initial(password)
      ensures clients == map[] && connections == Table([], map[]) && channels == Table([], map[])
    {
      this.password, ircOpNum := password, 0;
      users, connections, channels := Table([], map[]), Table([], map[]), Table([], map[]);
      clients, userIds, records, rooms := map[], map[], map[], map[];
    }

    // ---- context.c -----------------------------------------------------------

    /** get_user. */
    method GetUser(nick: Nick) returns (u: User?)
      requires Valid()
      ensures Valid() && ((u == null) == (nick == "" || nick !in userIds))
      ensures u != null ==> Mine(u) && u.clientFd == userIds[nick]
    {
      u := if nick != "" && nick in users.entries then users.entries[nick] else null;
    }

    /** get_channel. */
    method GetChannel(name: Name) returns (channel: Channel?)
      requires Valid()
      ensures Valid() && ((channel == null) == (name == "" || name !in rooms))
      ensures channel != null ==> Holds(channel, name)
    {
      channel := if name != "" && name in channels.entries then channels.entries[name] else null;
    }

    /** get_channel_count. */
    method ChannelCount() returns (n: nat)
      requires Valid()
      ensures Valid() && n == |rooms|
    {
      n := |channels.entries|;
    }

    /** increase_op_num. */
    method IncreaseOpNum()
      requires Valid()
      modifies `ircOpNum
      ensures Valid() && Model() == old(Model()).(ops := old(Model()).ops + 1)
    {
      hide UsersOk, SameKeys, RecordsAgree, RoomsAgree;
      ircOpNum := ircOpNum + 1;
    }

    /** add_connection. */
    method AddConnection(u: User, k: Connection)
      requires SameKeys(connections, clients, records) && RecordsAgree() && u.clientFd !in records
      requires IsClient(u.clientFd, u, k, NEW_CLIENT)
      modifies `connections, `clients, `records
      ensures SameKeys(connections, clients, records) && RecordsAgree()
      ensures connections.entries == old(connections.entries)[u.clientFd := k]
      ensures clients == old(clients)[u.clientFd := u] && records == old(records)[u.clientFd := NEW_CLIENT]
    {
      hide SameKeys, IsClient;
      SameKeysAdd(connections, clients, records, u.clientFd, k, u, NEW_CLIENT);
      connections := connections.Add(u.clientFd, k);
      clients := clients[u.clientFd := u];
      records := records[u.clientFd := NEW_CLIENT];
    }

    /** create_user, create_connection and add_connection. */
    method AddRecord(fd: Fd) returns (u: User)
      requires SameKeys(connections, clients, records) && RecordsAgree() && fd !in records
      modifies `connections, `clients, `records
      ensures SameKeys(connections, clients, records) && RecordsAgree()
      ensures fresh(u) && u.clientFd == fd && u.nick == None
      ensures fresh(connections.entries.Values - old(connections.entries.Values))
      ensures clients == old(clients)[fd := u] && records == old(records)[fd := NEW_CLIENT]
    {
      hide SameKeys;
      u := new User(fd);
      var k := new Connection(fd);
      AddConnection(u, k);
    }

    /** A client connects. */
    method Connect(fd: Fd) returns (u: User)
      requires Valid() && fd !in records
      modifies `connections, `clients, `records
      ensures Valid() && Mine(u) && u.clientFd == fd && fresh(u)
      ensures fresh(connections.entries.Values - old(connections.entries.Values))
      ensures clients == old(clients)[fd := u]
      ensures Model() == old(Model()).(clients := old(records)[fd := NEW_CLIENT])
    {
      hide UsersOk, SameKeys, RecordsAgree, RoomsAgree;
      assert allocated(channels.entries);
      assert fd !in clients by { ClientKeys(connections, clients, records); }
      u := AddRecord(fd);
      UsersConnect(users, userIds, old(clients), u);
    }

    /** delete_connection. */
    method RemoveRecord(fd: Fd)
      requires SameKeys(connections, clients, records) && RecordsAgree() && fd in records
      modifies `connections, `clients, `records
      ensures SameKeys(connections, clients, records) && RecordsAgree()
      ensures clients == old(clients) - {fd} && records == old(records) - {fd}
      ensures connections.entries == old(connections.entries) - {fd}
    {
      KeysRemove(connections.entries, records, fd);
      KeysRemove(clients, records, fd);
      connections := connections.Remove(fd);
      clients := clients - {fd};
      records := records - {fd};
    }

    /**
      delete_user, the record's nick being this: the record of the only user, and one that was
      never filed, has null links, and its deletion frees the table.
     */
    method DeleteUser(u: User, ghost after: map<Fd, User>)
      requires UsersOk(users, userIds, clients) && after == clients - {u.clientFd}
      requires u.nick.Some? ==>
        u.nick.value in userIds && forall n :: n in userIds - {u.nick.value} ==> userIds[n] != u.clientFd
      modifies `users, `userIds
      ensures UsersOk(users, userIds, after)
      ensures userIds == if u.nick.Some? then old(userIds) - {u.nick.value} else map[]
    {
      hide UsersOk;
      if u.nick.Some? {
        var nick := u.nick.value;
        UsersRemove(users, userIds, clients, nick);
        UsersDisconnect(users.Remove(nick), userIds - {nick}, clients, u.clientFd);
        users := users.Remove(nick);
        userIds := userIds - {nick};
      } else {
        NoUsers(after);
        users := Table([], map[]);
        userIds := map[];
      }
    }

    /** free_data: delete_connection and delete_user. */
    method FreeData(u: User)
      requires Valid() && Mine(u) && NicksOk(userIds, records) && Droppable(Model(), u.clientFd)
      modifies `connections, `users, `clients, `records, `userIds
      ensures Valid() && clients == old(clients) - {u.clientFd}
      ensures connections.entries == old(connections.entries) - {u.clientFd}
      ensures Droppable(old(Model()), u.clientFd) && Model() == Drop(old(Model()), u.clientFd)
    {
      hide UsersOk, SameKeys, RecordsAgree, RoomsAgree, NicksOk;
      assert allocated(channels.entries) && allocated(clients) && allocated(connections.entries);
      RecordOf(u);
      if u.nick.Some? {
        OneNick(userIds, records, u.clientFd, u.nick.value);
      }
      DeleteUser(u, clients - {u.clientFd});
      RemoveRecord(u.clientFd);
    }

    ghost function OtherUsers(fd: Fd): set<User>
      reads `clients
    {
      set x | x in clients && x != fd :: clients[x]
    }

    ghost function OtherConnections(fd: Fd): set<Connection>
      reads `clients, `connections
    {
      set x | x in clients && x in connections.entries && x != fd :: connections.entries[x]
    }

    ghost predicate OthersAgree(fd: Fd)
      reads `connections, `clients, `records, OtherConnections(fd)`state
      reads OtherUsers(fd)`nick, OtherUsers(fd)`username, OtherUsers(fd)`registered
      reads OtherUsers(fd)`isIrcOperator, OtherUsers(fd)`outbox
    {
      forall x :: x in clients && x != fd ==>
        x in connections.entries && x in records && IsClient(x, clients[x], connections.entries[x], records[x])
    }

    /** What the record of a connected client says; the records of the others are not the same objects. */
    lemma RecordOf(u: User)
      requires RecordsAgree() && Mine(u)
      ensures u.clientFd in records && u.clientFd in connections.entries
      ensures IsClient(u.clientFd, u, connections.entries[u.clientFd], records[u.clientFd])
      ensures OthersAgree(u.clientFd) && u !in OtherUsers(u.clientFd)
      ensures connections.entries[u.clientFd] !in OtherConnections(u.clientFd)
    {
    }

    /** What a client's record stands for follows the record. */
    method PutRecord(ghost u: User, ghost c: Client)
      requires SameKeys(connections, clients, records) && OthersAgree(u.clientFd) && Mine(u)
      requires u.clientFd in records && u.clientFd in connections.entries
      requires IsClient(u.clientFd, u, connections.entries[u.clientFd], c)
      modifies `records
      ensures SameKeys(connections, clients, records) && RecordsAgree()
      ensures records == old(records)[u.clientFd := c]
    {
      hide SameKeys, IsClient;
      SameKeysPut(connections, clients, records, u.clientFd, c);
      records := records[u.clientFd := c];
    }

    /** The nick of a record is set. */
    method SetNick(u: User, nick: Nick)
      requires SameKeys(connections, clients, records) && RecordsAgree() && Mine(u)
      modifies `records, u`nick
      ensures SameKeys(connections, clients, records) && RecordsAgree()
      ensures u.clientFd in old(records)
      ensures records == old(records)[u.clientFd := old(records)[u.clientFd].(nick := Some(nick))]
    {
      hide SameKeys, RecordsAgree, OthersAgree;
      RecordOf(u);
      u.nick := Some(nick);
      PutRecord(u, records[u.clientFd].(nick := Some(nick)));
    }

    /** Without a zero byte, a nick is looked up as it is filed. */
    lemma TextKeys(was: Nick, now: Nick)
      requires UsersOk(users, userIds, clients)
      ensures '\0' !in now ==>
        && AddKey(users.order, now) == (if now == "" || now in userIds then users.order else users.order + [now])
        && RenameKey(users.order, was, now) ==
             (if now == "" || now in userIds then users.order else Dropped(users.order, was) + [now])
    {
      hide AddKey, RenameKey, Dropped;
      if '\0' !in now {
        KeysOfText(users.order, was, now);
      }
    }

    /** add_user_nick: the record enters the user table under its first nick. */
    method AddUserNick(nick: Nick, u: User) returns (rv: int)
      requires Valid() && Mine(u)
      modifies `users, `userIds, `records, u`nick
      ensures Valid() && u.clientFd in old(records)
      ensures '\0' !in nick ==> users.order == AddKey(old(users.order), nick)
      ensures rv == if nick == "" then FAILURE else if nick in old(userIds) then NICK_IN_USE else SUCCESS
      ensures Model() == if rv != SUCCESS then old(Model()) else
        old(Model()).(users := old(userIds)[nick := u.clientFd],
                      clients := old(records)[u.clientFd := old(records)[u.clientFd].(nick := Some(nick))])
    {
      hide UsersOk, SameKeys, RecordsAgree, RoomsAgree, AddKey;
      RecordOf(u);
      TextKeys(nick, nick);
      if nick == "" {
        return FAILURE;
      }
      assert allocated(channels.entries);
      UserKeys(users, userIds, clients);
      if nick in users.entries {
        return NICK_IN_USE;
      }
      UsersAdd(users, userIds, clients, nick, u);
      users := users.Add(nick, u);
      userIds := userIds[nick := u.clientFd];
      SetNick(u, nick);
      return SUCCESS;
    }

    /** create_channel and HASH_ADD. */
    method AddChannel(name: Name) returns (channel: Channel)
      requires RoomsAgree() && name !in rooms
      modifies `channels, `rooms
      ensures RoomsAgree() && fresh(channel)
      ensures channels.entries == old(channels.entries)[name := channel] && rooms == old(rooms)[name := map[]]
    {
      channel := new Channel(name);
      KeysAdd(channels.entries, rooms, name, channel, map[]);
      channels := channels.Add(name, channel);
      rooms := rooms[name := map[]];
    }

    /** try_get_channel: found, or created empty and last in the table. */
    method TryGetChannel(name: Name) returns (channel: Channel?, isCreator: bool)
      requires Valid()
      modifies `channels, `rooms
      ensures Valid()
      ensures (channel == null) == (name == "")
      ensures channel != null ==> Holds(channel, name) && (isCreator ==> fresh(channel))
      ensures isCreator == (name != "" && name !in old(rooms))
      ensures fresh(channels.entries.Values - old(channels.entries.Values))
      ensures Model() == if isCreator then old(Model()).(channels := old(rooms)[name := map[]]) else old(Model())
    {
      hide UsersOk, SameKeys, RecordsAgree, RoomsAgree;
      if name == "" {
        return null, false;
      }
      RoomKeys();
      if name in channels.entries {
        return channels.entries[name], false;
      }
      assert allocated(clients) && allocated(connections.entries);
      channel := AddChannel(name);
      isCreator := true;
    }

    lemma RoomKeys()
      requires RoomsAgree()
      ensures channels.entries.Keys == rooms.Keys
    {
    }

    // ---- channel.c, on the channels of this server ---------------------------

    method JoinRoom(channel: Channel, nick: Nick, isCreator: bool) returns (rv: int)
      requires RoomsAgree() && Holds(channel, channel.name)
      modifies `rooms, channel`members
      ensures RoomsAgree() && channel.name in old(rooms)
      ensures rv == if nick == "" then -1 else if nick in old(rooms)[channel.name] then 1 else 0
      ensures rooms == if rv == 0 then old(rooms)[channel.name := old(rooms)[channel.name][nick := isCreator]]
                       else old(rooms)
    {
      hide RoomsAgree, OtherRoomsAgree;
      RoomAt(channel.name);
      rv := channel.Join(nick, isCreator);
      PutRoom(channel);
    }

    /** join_channel. */
    method JoinChannel(channel: Channel, nick: Nick, isCreator: bool) returns (rv: int)
      requires Valid() && Holds(channel, channel.name)
      modifies `rooms, channel`members
      ensures Valid() && channel.name in old(rooms)
      ensures rv == if nick == "" then -1 else if nick in old(rooms)[channel.name] then 1 else 0
      ensures Model() == if rv == 0
        then old(Model()).(channels := old(rooms)[channel.name := old(rooms)[channel.name][nick := isCreator]])
        else old(Model())
    {
      hide UsersOk, SameKeys, RecordsAgree, RoomsAgree;
      assert allocated(clients) && allocated(connections.entries);
      rv := JoinRoom(channel, nick, isCreator);
    }

    method LeaveRoom(channel: Channel, nick: Nick) returns (rv: int)
      requires RoomsAgree() && Holds(channel, channel.name)
      modifies `rooms, channel`members
      ensures RoomsAgree() && channel.name in old(rooms)
      ensures var members := old(rooms)[channel.name];
        && rv == (if nick == "" then -1 else if nick !in members then 1 else if members - {nick} == map[] then 2 else 0)
        && rooms == if rv == 0 || rv == 2 then old(rooms)[channel.name := members - {nick}] else old(rooms)
    {
      hide RoomsAgree, OtherRoomsAgree;
      RoomAt(channel.name);
      rv := channel.Leave(nick);
      PutRoom(channel);
    }

    /** leave_channel. */
    method LeaveChannel(channel: Channel, nick: Nick) returns (rv: int)
      requires Valid() && Holds(channel, channel.name)
      modifies `rooms, channel`members
      ensures Valid() && channel.name in old(rooms)
      ensures var members := old(rooms)[channel.name];
        && rv == (if nick == "" then -1 else if nick !in members then 1 else if members - {nick} == map[] then 2 else 0)
        && Model() == if rv == 0 || rv == 2
                      then old(Model()).(channels := old(rooms)[channel.name := members - {nick}]) else old(Model())
    {
      hide UsersOk, SameKeys, RecordsAgree, RoomsAgree;
      assert allocated(clients) && allocated(connections.entries);
      rv := LeaveRoom(channel, nick);
    }

    method ModeInRoom(channel: Channel, nick: Nick, mode: string) returns (rv: int)
      requires RoomsAgree() && Holds(channel, channel.name)
      modifies `rooms, channel`members
      ensures RoomsAgree() && channel.name in old(rooms)
      ensures var members := old(rooms)[channel.name];
        && rv == (if nick == "" then -1 else if nick !in members then 1
                  else if mode == "+o" || mode == "-o" then 0 else 2)
        && rooms == if rv == 0 then old(rooms)[channel.name := members[nick := mode == "+o"]] else old(rooms)
    {
      hide RoomsAgree, OtherRoomsAgree;
      RoomAt(channel.name);
      rv := channel.UpdateMemberMode(nick, mode);
      PutRoom(channel);
    }

    /** update_member_mode. */
    method UpdateMemberMode(channel: Channel, nick: Nick, mode: string) returns (rv: int)
      requires Valid() && Holds(channel, channel.name)
      modifies `rooms, channel`members
      ensures Valid() && channel.name in old(rooms)
      ensures var members := old(rooms)[channel.name];
        && rv == (if nick == "" then -1 else if nick !in members then 1
                  else if mode == "+o" || mode == "-o" then 0 else 2)
        && Model() == if rv == 0
                      then old(Model()).(channels := old(rooms)[channel.name := members[nick := mode == "+o"]])
                      else old(Model())
    {
      hide UsersOk, SameKeys, RecordsAgree, RoomsAgree;
      assert allocated(clients) && allocated(connections.entries);
      rv := ModeInRoom(channel, nick, mode);
    }

    /** HASH_DEL of an empty channel. */
    method DeleteChannel(channel: Channel)
      requires Valid() && Holds(channel, channel.name)
      modifies `channels, `rooms
      ensures Valid() && Model() == old(Model()).(channels := old(rooms) - {channel.name})
      ensures channels.entries == old(channels.entries) - {channel.name}
    {
      hide UsersOk, SameKeys, RecordsAgree;
      KeysRemove(channels.entries, rooms, channel.name);
      channels := channels.Remove(channel.name);
      rooms := rooms - {channel.name};
    }

    /** update_member_nick. */
    method UpdateMemberNick(channel: Channel, was: Nick, now: Nick) returns (rv: int)
      requires RoomsAgree() && Holds(channel, channel.name) && was != "" && now != ""
      requires channel.name in rooms ==> now !in rooms[channel.name]
      modifies `rooms, channel`members
      ensures RoomsAgree() && channel.name in old(rooms)
      ensures rv == if was in old(rooms)[channel.name] then 0 else 1
      ensures rooms == old(rooms)[channel.name := RenameMember(old(rooms)[channel.name], was, now)]
    {
      hide RenameMember, RoomsAgree, OtherRoomsAgree;
      RoomAt(channel.name);
      rv := channel.UpdateMemberNick(was, now);
      PutRoom(channel);
    }

    /** One turn of the loop of update_nick_on_channel. */
    method RenameOn(i: nat, was: Nick, now: Nick, arr: array<Channel?>, count: nat,
                    ghost before: map<Name, map<Nick, bool>>)
      returns (n: nat)
      requires RoomsAgree() && i < |channels.order| == arr.Length && count <= i
      requires was != "" && now != "" && forall c :: c in before ==> now !in before[c]
      requires Renaming(channels.order, i, before, rooms, was, now)
      requires Lists(arr, count, ChannelsOn(channels.order[..i], before, was))
      modifies `rooms, channels.entries.Values`members, arr
      ensures RoomsAgree() && n <= i + 1 && Renaming(channels.order, i + 1, before, rooms, was, now)
      ensures Lists(arr, n, ChannelsOn(channels.order[..i + 1], before, was))
    {
      hide RoomsAgree, RenameMember, Renaming, ChannelsOn, Lists;
      RoomsInOrder();
      var channel := channels.entries[channels.order[i]];
      ChannelsOnStep(channels.order, i, before, was);
      RenamingStep(channels.order, i, before, rooms, was, now);
      n := count;
      var rv := UpdateMemberNick(channel, was, now);
      if rv == 0 {
        n := Collect(arr, count, channel, ChannelsOn(channels.order[..i], before, was));
      }
    }

    /** update_nick_on_channel: on every channel, and the list of those the user is on. */
    method UpdateNickOnChannel(was: Nick, now: Nick) returns (arr: array<Channel?>, count: nat)
      requires RoomsAgree() && was != "" && now != "" && forall c :: c in rooms ==> now !in rooms[c]
      modifies `rooms, channels.entries.Values`members
      ensures RoomsAgree() && rooms == RenameEverywhere(old(rooms), was, now)
      ensures fresh(arr) && Lists(arr, count, ChannelsOn(channels.order, old(rooms), was))
    {
      hide RoomsAgree, RenameEverywhere, Renaming, ChannelsOn, Lists;
      RoomsInOrder();
      arr := new Channel?[|channels.entries|](_ => null);
      count := 0;
      EmptyChannelsOn(rooms, was);
      NothingListed(arr);
      ghost var order, before := channels.order, rooms;
      RenamingNone(order, rooms, was, now);
      for i := 0 to |channels.order|
        invariant RoomsAgree() && Renaming(order, i, before, rooms, was, now)
        invariant count <= i && Lists(arr, count, ChannelsOn(order[..i], before, was))
      {
        count := RenameOn(i, was, now, arr, count, before);
      }
      assert order[..|order|] == order;
      RenamedEverywhere(order, before, rooms, was, now);
    }

    /** HASH_DEL, the new nick, HASH_ADD. */
    method Refile(u: User, was: Nick, now: Nick)
      requires UsersOk(users, userIds, clients) && SameKeys(connections, clients, records) && RecordsAgree()
      requires Mine(u) && was in userIds && now !in userIds
      modifies `users, `userIds, `records, u`nick
      ensures UsersOk(users, userIds, clients) && SameKeys(connections, clients, records) && RecordsAgree()
      ensures u.clientFd in old(records) && userIds == (old(userIds) - {was})[now := u.clientFd]
      ensures users.order == Dropped(old(users.order), was) + [now]
      ensures records == old(records)[u.clientFd := old(records)[u.clientFd].(nick := Some(now))]
    {
      hide UsersOk, SameKeys, RecordsAgree, Dropped;
      UsersRemove(users, userIds, clients, was);
      UsersAdd(users.Remove(was), userIds - {was}, clients, now, u);
      users := users.Remove(was).Add(now, u);
      userIds := (userIds - {was})[now := u.clientFd];
      SetNick(u, now);
    }

    /** update_user_nick: in every channel first, then in the user table. */
    method UpdateUserNick(now: Nick, u: User) returns (rv: int, arr: array<Channel?>, count: nat)
      requires Valid() && Mine(u) && Inv(Model()) && u.nick.Some?
      modifies `users, `userIds, `records, `rooms, u`nick, channels.entries.Values`members
      ensures Valid() && u.clientFd in old(records)
      ensures rv == if now == "" then FAILURE else if now in old(userIds) then NICK_IN_USE else SUCCESS
      ensures '\0' !in now ==> users.order == RenameKey(old(users.order), old(u.nick).value, now)
      ensures Model() == if rv != SUCCESS then old(Model())
                         else Relabelled(old(Model()), u.clientFd, old(u.nick).value, now)
      ensures rv == SUCCESS ==>
        fresh(arr) && Lists(arr, count, ChannelsOn(channels.order, old(rooms), old(u.nick).value))
    {
      hide UsersOk, SameKeys, RecordsAgree, RoomsAgree, Inv, RenameEverywhere, ChannelsOn, Lists, RenameKey, Dropped;
      RecordOf(u);
      TextKeys(u.nick.value, now);
      assert allocated(clients) && allocated(connections.entries);
      arr, count := new Channel?[0], 0;
      var was := u.nick.value;
      if now == "" {
        return FAILURE, arr, count;
      }
      UserKeys(users, userIds, clients);
      if now in users.entries {
        return NICK_IN_USE, arr, count;
      }
      NewNickIsFree(Model(), u.clientFd, was, now);
      arr, count := UpdateNickOnChannel(was, now);
      assert allocated(channels.entries);
      Refile(u, was, now);
      rv := SUCCESS;
    }

    lemma Threads()
      requires Valid()
      ensures clients.Keys == Model().clients.Keys
      ensures forall x :: x in clients ==> clients[x].clientFd == x && Mine(clients[x])
    {
      hide UsersOk, RoomsAgree;
    }

    /** The channel table walks every channel once. */
    lemma ChannelOrder()
      requires Valid()
      ensures NoRepeats(channels.order) && forall c :: c in channels.order <==> c in Model().channels
    {
      hide UsersOk, SameKeys, RecordsAgree;
    }

    /** A channel in the table is filed under its name. */
    lemma NameOf(channel: Channel, name: Name)
      requires Valid() && Holds(channel, name)
      ensures channel.name == name && name in Model().channels && channel.members.entries == Model().channels[name]
    {
      hide UsersOk, SameKeys, RecordsAgree;
    }

    lemma RoomsInOrder()
      requires RoomsAgree()
      ensures NoRepeats(channels.order) && |channels.order| == |channels.entries|
      ensures forall c :: c in channels.order <==> c in rooms
      ensures forall c :: c in channels.order ==> c in channels.entries
      ensures forall c :: c in channels.entries ==> Holds(channels.entries[c], c) && channels.entries[c].name == c
    {
      OrderLength(channels);
    }

    /** send_reply: the reply is appended to what the client was sent. */
    method SendReply(u: User, r: Reply) returns (rv: int)
      requires Valid() && Mine(u)
      modifies `records, u`outbox
      ensures Valid() && u.clientFd in old(records)
      ensures Model() == Send(old(Model()), u.clientFd, r) && rv == SUCCESS
    {
      hide UsersOk, SameKeys, RoomsAgree, RecordsAgree, OthersAgree;
      assert allocated(channels.entries);
      RecordOf(u);
      u.outbox := u.outbox + [r];
      PutRecord(u, Put(records[u.clientFd], r));
      rv := SUCCESS;
    }

    /** One turn of the loop of notify_all_channel_members. */
    method NotifyMember(nick: Nick, r: Reply, skip: Option<Nick>,
                        ghost before: State, ghost order: seq<Nick>, ghost i: nat)
      requires Valid() && i < |order| && order[i] == nick
      requires NicksOk(before.users, before.clients) && NoRepeats(order)
      requires Model() == SendEach(before, order[..i], skip, r)
      modifies `records, clients.Values`outbox
      ensures Valid() && Model() == SendEach(before, order[..i + 1], skip, r)
    {
      hide UsersOk, SameKeys, RecordsAgree, RoomsAgree, NicksOk, SendEach, Send;
      SendEachStep(before, order, i, skip, r);
      if Some(nick) != skip {
        var user := GetUser(nick);
        if user != null {
          var sent := SendReply(user, r);
        }
      }
    }

    /** notify_all_channel_members: one copy to each member, the skipped nick excepted. */
    method NotifyAllChannelMembers(channel: Channel, r: Reply, skip: Option<Nick>) returns (rv: int)
      requires Valid() && NicksOk(userIds, records) && Holds(channel, channel.name)
      modifies `records, clients.Values`outbox
      ensures Valid() && rv == SUCCESS && channel.name in rooms
      ensures Model() == Notify(old(Model()), rooms[channel.name], skip, r)
    {
      hide UsersOk, SameKeys, RecordsAgree, RoomsAgree, NicksOk, SendEach, Send, Notify;
      RoomAt(channel.name);
      assert allocated(channels.entries) && allocated(clients) && allocated(connections.entries);
      ghost var before := Model();
      var nicks := channel.MemberNicks();
      ghost var order := nicks[..];
      NothingSent(before, skip, r);
      for i := 0 to nicks.Length
        invariant Valid() && nicks[..] == order && channels == old(channels) && clients == old(clients)
        invariant Model() == SendEach(before, order[..i], skip, r)
      {
        NotifyMember(nicks[i], r, skip, before, order, i);
      }
      assert order[..|order|] == order;
      SendEachIsNotify(before, order, rooms[channel.name], skip, r);
      rv := SUCCESS;
    }

    /** The user name of a record is set. */
    method SetUsername(u: User, name: string)
      requires Valid() && Mine(u)
      modifies `records, u`username
      ensures Valid() && u.clientFd in old(records)
      ensures Model() == old(Model()).(
        clients := old(records)[u.clientFd := old(records)[u.clientFd].(username := Some(name))])
    {
      hide UsersOk, SameKeys, RoomsAgree, RecordsAgree, OthersAgree;
      assert allocated(channels.entries);
      RecordOf(u);
      u.username := Some(name);
      PutRecord(u, records[u.clientFd].(username := Some(name)));
    }

    method SetRegistered(u: User)
      requires Valid() && Mine(u)
      modifies `records, u`registered
      ensures Valid() && u.clientFd in old(records)
      ensures Model() == old(Model()).(
        clients := old(records)[u.clientFd := old(records)[u.clientFd].(registered := true)])
    {
      hide UsersOk, SameKeys, RoomsAgree, RecordsAgree, OthersAgree;
      assert allocated(channels.entries);
      RecordOf(u);
      u.registered := true;
      PutRecord(u, records[u.clientFd].(registered := true));
    }

    method SetOperator(u: User)
      requires Valid() && Mine(u)
      modifies `records, u`isIrcOperator
      ensures Valid() && u.clientFd in old(records)
      ensures Model() == old(Model()).(clients := old(records)[u.clientFd := old(records)[u.clientFd].(oper := true)])
    {
      hide UsersOk, SameKeys, RoomsAgree, RecordsAgree, OthersAgree;
      assert allocated(channels.entries);
      RecordOf(u);
      u.isIrcOperator := true;
      PutRecord(u, records[u.clientFd].(oper := true));
    }

    /** What the record of a connected client says of the state. */
    lemma ClientOf(u: User)
      requires Valid() && Mine(u)
      ensures u.clientFd in Model().clients
      ensures var c := Model().clients[u.clientFd];
        u.nick == c.nick && u.username == c.username && u.registered == c.registered && u.isIrcOperator == c.oper
    {
      hide UsersOk, RoomsAgree;
    }

    lemma ThreadOf(id: Fd) returns (u: User)
      requires RecordsAgree() && id in clients
      ensures Mine(u) && u.clientFd == id
    {
      u := clients[id];
    }

    /** modify_connection_state: only towards registered. */
    method ModifyConnectionState(id: Fd, state: Conn) returns (rv: int)
      requires Valid()
      modifies `records, connections.entries.Values`state
      ensures Valid()
      ensures rv == if id in old(records) && state != UnknownConn then SUCCESS else FAILURE
      ensures Model() == if rv == SUCCESS
                         then old(Model()).(clients := old(records)[id := Advance(old(records)[id], state)])
                         else old(Model())
    {
      hide UsersOk, SameKeys, RoomsAgree, RecordsAgree, OthersAgree;
      assert allocated(channels.entries);
      ClientKeys(connections, clients, records);
      if id !in connections.entries || (state != RegisteredConn && state != UserConn) {
        return FAILURE;
      }
      ghost var u := ThreadOf(id);
      RecordOf(u);
      var connection := connections.entries[id];
      if connection.state != RegisteredConn {
        connection.state := state;
      }
      PutRecord(u, Advance(records[id], state));
      return SUCCESS;
    }

    lemma ConnectionsInOrder()
      requires SameKeys(connections, clients, records) && RecordsAgree()
      ensures NoRepeats(connections.order) && forall x :: x in connections.order <==> x in records
      ensures forall x :: x in connections.order ==>
        x in connections.entries && connections.entries[x].state == records[x].conn
    {
    }

    /** count_connection_state: unknown, user or registered, and registered connections. */
    method CountConnectionState() returns (res: array<nat>)
      requires Valid()
      ensures Valid() && fresh(res) && res.Length == 3
      ensures res[0] == Count(records, UnknownConn)
      ensures res[1] == Count(records, UserConn) + Count(records, RegisteredConn)
      ensures res[2] == Count(records, RegisteredConn)
    {
      hide UsersOk, SameKeys, RecordsAgree, RoomsAgree, Tally, Count;
      ConnectionsInOrder();
      assert allocated(clients) && allocated(connections.entries) && allocated(channels.entries);
      res := new nat[3](_ => 0);
      assert Tally([], records, UnknownConn) == Tally([], records, UserConn) == 0
          && Tally([], records, RegisteredConn) == 0 by {
        EmptyTally(records);
      }
      for i := 0 to |connections.order|
        invariant res[0] == Tally(connections.order[..i], records, UnknownConn)
        invariant res[1] == Tally(connections.order[..i], records, UserConn)
                          + Tally(connections.order[..i], records, RegisteredConn)
        invariant res[2] == Tally(connections.order[..i], records, RegisteredConn)
      {
        var id := connections.order[i];
        var con := connections.entries[id];
        assert con.state == records[id].conn;
        TallyStep(connections.order, i, records, UnknownConn);
        TallyStep(connections.order, i, records, UserConn);
        TallyStep(connections.order, i, records, RegisteredConn);
        if con.state == UnknownConn {
          res[0] := res[0] + 1;
        } else if con.state == UserConn {
          res[1] := res[1] + 1;
        } else {
          res[1] := res[1] + 1;
          res[2] := res[2] + 1;
        }
      }
      assert connections.order[..|connections.order|] == connections.order;
      TallyIsCount(connections.order, records, UnknownConn);
      TallyIsCount(connections.order, records, UserConn);
      TallyIsCount(connections.order, records, RegisteredConn);
    }

    /** The first count slots hold the channels of these names. */
    ghost predicate Lists(arr: array<Channel?>, count: nat, names: seq<Name>)
      reads `channels, arr
    {
      && count == |names| <= arr.Length
      && forall i :: 0 <= i < count ==> arr[i] != null && Holds(arr[i], names[i])
    }

    lemma NothingListed(arr: array<Channel?>)
      ensures Lists(arr, 0, [])
    {
    }

    /** arr[i++] = cha. */
    method Collect(arr: array<Channel?>, count: nat, channel: Channel, ghost names: seq<Name>) returns (n: nat)
      requires Lists(arr, count, names) && count < arr.Length && Holds(channel, channel.name)
      modifies arr
      ensures Lists(arr, n, names + [channel.name]) && n == count + 1
    {
      arr[count] := channel;
      n := count + 1;
    }

    /** get_channels_user_on. */
    method GetChannelsUserOn(nick: Nick) returns (arr: array<Channel?>, count: nat)
      requires Valid()
      ensures fresh(arr) && Lists(arr, count, ChannelsOn(channels.order, rooms, nick))
    {
      hide UsersOk, SameKeys, RecordsAgree, RoomsAgree, ChannelsOn, Lists;
      RoomsInOrder();
      arr := new Channel?[|channels.entries|](_ => null);
      count := 0;
      EmptyChannelsOn(rooms, nick);
      NothingListed(arr);
      for i := 0 to |channels.order|
        invariant count <= i && Lists(arr, count, ChannelsOn(channels.order[..i], rooms, nick))
      {
        var channel := channels.entries[channels.order[i]];
        RoomAt(channels.order[i]);
        ChannelsOnStep(channels.order, i, rooms, nick);
        if channel.AlreadyOn(nick) {
          count := Collect(arr, count, channel, ChannelsOn(channels.order[..i], rooms, nick));
        }
      }
      assert channels.order[..|channels.order|] == channels.order;
    }
  }

  lemma UserKeys(users: Table<Nick, User>, ids: map<Nick, Fd>, clients: map<Fd, User>)
    requires UsersOk(users, ids, clients)
    ensures users.entries.Keys == ids.Keys
  {
  }

  /** The first i channels of the table were gone through. */
  ghost predicate Renaming(order: seq<Name>, i: nat, a: map<Name, map<Nick, bool>>, b: map<Name, map<Nick, bool>>,
                           was: Nick, now: Nick)
  {
    && NoRepeats(order) && i <= |order| && (forall c :: c in order <==> c in a) && a.Keys == b.Keys
    && forall k :: 0 <= k < |order| ==>
         b[order[k]] == if k < i then RenameMember(a[order[k]], was, now) else a[order[k]]
  }

  lemma RenamingNone(order: seq<Name>, a: map<Name, map<Nick, bool>>, was: Nick, now: Nick)
    requires NoRepeats(order) && forall c :: c in order <==> c in a
    ensures Renaming(order, 0, a, a, was, now)
  {
  }

  lemma RenamingStep(order: seq<Name>, i: nat, a: map<Name, map<Nick, bool>>, b: map<Name, map<Nick, bool>>,
                     was: Nick, now: Nick)
    requires Renaming(order, i, a, b, was, now) && i < |order|
    ensures order[i] in a && order[i] in b && b[order[i]] == a[order[i]]
    ensures Renaming(order, i + 1, a, b[order[i] := RenameMember(b[order[i]], was, now)], was, now)
  {
    hide RenameMember;
    var b' := b[order[i] := RenameMember(b[order[i]], was, now)];
    assert b'.Keys == b.Keys + {order[i]};
  }

  lemma RenamedEverywhere(order: seq<Name>, a: map<Name, map<Nick, bool>>, b: map<Name, map<Nick, bool>>,
                     was: Nick, now: Nick)
    requires Renaming(order, |order|, a, b, was, now)
    ensures b == RenameEverywhere(a, was, now)
  {
    hide RenameMember;
    forall c | c in a
      ensures b[c] == RenameMember(a[c], was, now)
    {
      var k :| 0 <= k < |order| && order[k] == c;
    }
    SameMap(b, RenameEverywhere(a, was, now));
  }

  lemma NewNickIsFree(s: State, fd: Fd, was: Nick, now: Nick)
    requires Inv(s) && fd in s.clients && s.clients[fd].nick == Some(was) && now !in s.users
    ensures was != "" && was in s.users && forall c :: c in s.channels ==> now !in s.channels[c]
  {
  }
}
