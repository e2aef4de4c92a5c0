/** User, connection and channel records. */
module ChatObjects {
  import opened Optional
  import opened OrderedTable
  import opened ChatState

  class User {
    const clientFd: Fd
    var nick: Option<Nick>
    var username: Option<string>
    var registered: bool
    var isIrcOperator: bool
    // everything sent to the socket
    var outbox: seq<Reply>

    constructor (fd: Fd)
      ensures clientFd == fd && nick == None && username == None && !registered && !isIrcOperator && outbox == []
    {
      clientFd := fd;
      nick, username, registered, isIrcOperator, outbox := None, None, false, false, [];
    }

    predicate CanRegister()
      reads this
    {
      nick.Some? && username.Some?
    }
  }

  class Connection {
    const socketNum: Fd
    var state: Conn

    constructor (fd: Fd)
      ensures socketNum == fd && state == UnknownConn
    {
      socketNum, state := fd, UnknownConn;
    }
  }

  class Channel {
    const name: Name
    var members: Table<Nick, bool>

    constructor (name: Name)
      ensures this.name == name && members == NOTHING
    {
      this.name, members := name, NOTHING;
    }

    predicate AlreadyOn(nick: Nick)
      reads this
    {
      nick in members.entries
    }

    predicate IsOperator(nick: Nick)
      reads this
    {
      nick in members.entries && members.entries[nick]
    }

    /** join_channel: 0 joined, 1 was on the channel already, -1 no nick. */
    method Join(nick: Nick, isCreator: bool) returns (rv: int)
      requires members.Ok()
      modifies `members
      ensures members.Ok()
      ensures rv == if nick == "" then -1 else if nick in old(members.entries) then 1 else 0
      ensures members == if rv == 0 then old(members).Add(nick, isCreator) else old(members)
    {
      if nick == "" {
        return -1;
      }
      if nick in members.entries {
        return 1;
      }
      members := members.Add(nick, isCreator);
      return 0;
    }

    /** leave_channel: 0 left, 2 left as the last member, 1 was not on the channel, -1 no nick. */
    method Leave(nick: Nick) returns (rv: int)
      requires members.Ok()
      modifies `members
      ensures members.Ok()
      ensures rv == if nick == "" then -1 else if nick !in old(members.entries) then 1
                    else if old(members.entries) - {nick} == map[] then 2 else 0
      ensures members == if rv == 0 || rv == 2 then old(members).Remove(nick) else old(members)
    {
      if nick == "" {
        return -1;
      }
      if nick !in members.entries {
        return 1;
      }
      members := members.Remove(nick);
      return if |members.entries| == 0 then 2 else 0;
    }

    /** update_member_nick: the member is filed under the new nick, its flag unchanged. */
    method UpdateMemberNick(was: Nick, now: Nick) returns (rv: int)
      requires members.Ok() && was != "" && now != "" && now !in members.entries
      modifies `members
      ensures members.Ok() && members.entries == RenameMember(old(members.entries), was, now)
      ensures rv == if was in old(members.entries) then 0 else 1
    {
      if was !in members.entries {
        return 1;
      }
      var isOperator := members.entries[was];
      members := members.Remove(was).Add(now, isOperator);
      return 0;
    }

    /** update_member_mode: -1 no nick, 1 not on the channel, 2 unknown mode, 0 done. */
    method UpdateMemberMode(nick: Nick, mode: string) returns (rv: int)
      requires members.Ok()
      modifies `members
      ensures members.Ok() && members.order == old(members.order)
      ensures rv == if nick == "" then -1 else if nick !in old(members.entries) then 1
                    else if mode == "+o" || mode == "-o" then 0 else 2
      ensures members.entries == if rv == 0 then old(members.entries)[nick := mode == "+o"] else old(members.entries)
    {
      if nick == "" {
        return -1;
      }
      if nick !in members.entries {
        return 1;
      }
      if mode == "+o" {
        members := members.Put(nick, true);
        return 0;
      }
      if mode == "-o" {
        members := members.Put(nick, false);
        return 0;
      }
      return 2;
    }

    /** member_nicks_arr. */
    method MemberNicks() returns (arr: array<Nick>)
      requires members.Ok()
      ensures fresh(arr) && arr[..] == members.order
    {
      OrderLength(members);
      arr := new Nick[|members.entries|];
      for i := 0 to |members.order|
        invariant arr[..i] == members.order[..i]
      {
        arr[i] := members.order[i];
      }
    }
  }
}
