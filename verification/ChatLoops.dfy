/** What the server's loops compute, one element at a time, and that it is what the handlers say. */
module ChatLoops {
  import opened Optional
  import opened OrderedTable
  import opened ChatState
  import opened ChatInvariant
  import opened ChatRefinement

  // ---- notify_all_channel_members --------------------------------------------

  /** A reply to the holder of each nick in turn, the skipped nick excepted. */
  function SendEach(s: State, nicks: seq<Nick>, skip: Option<Nick>, r: Reply): State {
    if nicks == [] then s
    else
      var t, n := SendEach(s, nicks[..|nicks| - 1], skip, r), nicks[|nicks| - 1];
      if Some(n) != skip && n in t.users && t.users[n] in t.clients then Send(t, t.users[n], r) else t
  }

  lemma NothingSent(s: State, skip: Option<Nick>, r: Reply)
    ensures SendEach(s, [], skip, r) == s
  {
  }

  lemma SendEachStep(s: State, nicks: seq<Nick>, i: nat, skip: Option<Nick>, r: Reply)
    requires NicksOk(s.users, s.clients) && NoRepeats(nicks) && i < |nicks|
    ensures var t, n := SendEach(s, nicks[..i], skip, r), nicks[i];
      && t.users == s.users && t.channels == s.channels && (n in s.users ==> n != "" && s.users[n] in t.clients)
      && SendEach(s, nicks[..i + 1], skip, r) == if Some(n) != skip && n in s.users then Send(t, s.users[n], r) else t
  {
    hide NicksOk, Reached;
    assert nicks[..i + 1][..i] == nicks[..i];
    SendEachAt(s, nicks[..i], skip, r);
    UsersAreClients(s);
    if nicks[i] in s.users {
      var x := s.users[nicks[i]];
      assert x in s.clients;
      assert x in SendEach(s, nicks[..i], skip, r).clients;
    }
  }

  ghost predicate Reached(users: map<Nick, Fd>, nicks: seq<Nick>, skip: Option<Nick>, x: Fd) {
    exists n :: n in nicks && Some(n) != skip && n in users && users[n] == x
  }

  lemma LastReached(users: map<Nick, Fd>, clients: map<Fd, Client>, nicks: seq<Nick>, skip: Option<Nick>, x: Fd)
    requires NicksOk(users, clients) && NoRepeats(nicks) && nicks != []
    ensures var before, n := nicks[..|nicks| - 1], nicks[|nicks| - 1];
      && (Reached(users, nicks, skip, x) <==>
            Reached(users, before, skip, x) || (Some(n) != skip && n in users && users[n] == x))
      && !(Reached(users, before, skip, x) && n in users && users[n] == x)
  {
    var before, n := nicks[..|nicks| - 1], nicks[|nicks| - 1];
    assert nicks == before + [n];
  }

  lemma {:induction false} SendEachAt(s: State, nicks: seq<Nick>, skip: Option<Nick>, r: Reply)
    requires NicksOk(s.users, s.clients) && NoRepeats(nicks)
    ensures var t := SendEach(s, nicks, skip, r);
      && t == s.(clients := t.clients) && (forall x :: x in t.clients <==> x in s.clients)
      && forall x :: x in s.clients ==>
           t.clients[x] == if Reached(s.users, nicks, skip, x) then Put(s.clients[x], r) else s.clients[x]
  {
    hide NicksOk, Reached;
    if nicks == [] {
      assert forall x :: !Reached(s.users, nicks, skip, x) by { NobodyReached(s.users, skip); }
    } else {
      SendEachAt(s, nicks[..|nicks| - 1], skip, r);
      UsersAreClients(s);
      forall x {
        LastReached(s.users, s.clients, nicks, skip, x);
      }
    }
  }

  lemma NobodyReached(users: map<Nick, Fd>, skip: Option<Nick>)
    ensures forall x :: !Reached(users, [], skip, x)
  {
  }

  lemma UsersAreClients(s: State)
    requires NicksOk(s.users, s.clients)
    ensures forall n :: n in s.users ==> n != "" && s.users[n] in s.clients
  {
  }

  lemma ReachedByNick(users: map<Nick, Fd>, nicks: seq<Nick>, members: map<Nick, bool>, skip: Option<Nick>, x: Fd)
    requires forall n :: n in nicks <==> n in members
    ensures Reached(users, nicks, skip, x) <==> Reaches(users, members, skip, x)
  {
  }

  lemma SendEachIsNotify(s: State, nicks: seq<Nick>, members: map<Nick, bool>, skip: Option<Nick>, r: Reply)
    requires NicksOk(s.users, s.clients) && NoRepeats(nicks) && forall n :: n in nicks <==> n in members
    ensures SendEach(s, nicks, skip, r) == Notify(s, members, skip, r)
  {
    hide NicksOk, Reached, Reaches;
    SendEachAt(s, nicks, skip, r);
    var a, b := SendEach(s, nicks, skip, r).clients, Notify(s, members, skip, r).clients;
    forall x
      ensures x in a <==> x in b
      ensures x in a ==> a[x] == b[x]
    {
      ReachedByNick(s.users, nicks, members, skip, x);
    }
    SameMap(a, b);
  }

  // ---- the channels a user is on ---------------------------------------------

  /** The channels with this member, in order. */
  function ChannelsOn(order: seq<Name>, channels: map<Name, map<Nick, bool>>, nick: Nick): seq<Name> {
    if order == [] then []
    else
      var c := order[|order| - 1];
      ChannelsOn(order[..|order| - 1], channels, nick)
      + if c in channels && nick in channels[c] then [c] else []
  }

  lemma EmptyChannelsOn(channels: map<Name, map<Nick, bool>>, nick: Nick)
    ensures ChannelsOn([], channels, nick) == []
  {
  }

  lemma ChannelsOnStep(order: seq<Name>, i: nat, channels: map<Name, map<Nick, bool>>, nick: Nick)
    requires i < |order|
    ensures var on := ChannelsOn(order[..i], channels, nick);
      ChannelsOn(order[..i + 1], channels, nick)
      == if order[i] in channels && nick in channels[order[i]] then on + [order[i]] else on
  {
    assert order[..i + 1][..i] == order[..i];
  }

  lemma {:induction false} ChannelsOnAreAll(order: seq<Name>, channels: map<Name, map<Nick, bool>>, nick: Nick)
    requires NoRepeats(order)
    ensures var on := ChannelsOn(order, channels, nick);
      NoRepeats(on) && |on| <= |order| && forall c :: c in on <==> c in order && c in channels && nick in channels[c]
  {
    if order == [] {
    } else {
      var before, c := order[..|order| - 1], order[|order| - 1];
      assert order == before + [c];
      ChannelsOnAreAll(before, channels, nick);
      var on := ChannelsOn(before, channels, nick);
      assert c !in before;
      assert NoRepeats(on + [c]);
    }
  }

  // ---- telling every affected channel of a rename ----------------------------

  function NotifyEach(s: State, names: seq<Name>, r: Reply): State {
    if names == [] then s
    else
      var t, c := NotifyEach(s, names[..|names| - 1], r), names[|names| - 1];
      if c in t.channels then Notify(t, t.channels[c], None, r) else t
  }

  /** The names among these of channels through which x is reached. */
  ghost function Heard(s: State, names: seq<Name>, x: Fd): set<Name> {
    set c | c in names && c in s.channels && Reaches(s.users, s.channels[c], None, x)
  }

  lemma HeardLast(s: State, names: seq<Name>, x: Fd)
    requires NoRepeats(names) && names != []
    ensures var before, c := names[..|names| - 1], names[|names| - 1];
      |Heard(s, names, x)|
      == |Heard(s, before, x)| + if c in s.channels && Reaches(s.users, s.channels[c], None, x) then 1 else 0
  {
    hide Reaches;
    var before, c := names[..|names| - 1], names[|names| - 1];
    assert names == before + [c];
    assert c !in before;
    if c in s.channels && Reaches(s.users, s.channels[c], None, x) {
      assert Heard(s, names, x) == Heard(s, before, x) + {c};
    } else {
      assert Heard(s, names, x) == Heard(s, before, x);
    }
  }

  lemma {:induction false} NotifyEachAt(s: State, names: seq<Name>, r: Reply)
    requires NoRepeats(names)
    ensures var t := NotifyEach(s, names, r);
      && t == s.(clients := t.clients) && (forall x :: x in t.clients <==> x in s.clients)
      && forall x :: x in s.clients ==>
           t.clients[x] == s.clients[x].(outbox := s.clients[x].outbox + Repeat(r, |Heard(s, names, x)|))
  {
    hide Reaches, Heard;
    if names == [] {
      forall x | x in s.clients
        ensures s.clients[x].outbox + Repeat(r, |Heard(s, names, x)|) == s.clients[x].outbox
      {
        assert Heard(s, names, x) == {} by { NothingHeard(s, x); }
      }
    } else {
      var before := names[..|names| - 1];
      NotifyEachAt(s, before, r);
      forall x | x in s.clients
        ensures var n, m := |Heard(s, before, x)|, |Heard(s, names, x)|;
          (n == m || m == n + 1) && s.clients[x].outbox + Repeat(r, n) + [r] == s.clients[x].outbox + Repeat(r, n + 1)
      {
        HeardLast(s, names, x);
      }
      forall x {
        HeardLast(s, names, x);
      }
    }
  }

  lemma NothingHeard(s: State, x: Fd)
    ensures Heard(s, [], x) == {}
  {
  }

  /** Relabelling and then telling each channel of the user is the rename. */
  lemma NotifyEachIsRename(s: State, fd: Fd, was: Nick, now: Nick, names: seq<Name>)
    requires fd in s.clients && NoRepeats(names)
    requires var t := Relabelled(s, fd, was, now);
      forall c :: c in names <==> c in t.channels && now in t.channels[c]
    ensures NotifyEach(Relabelled(s, fd, was, now), names, Renamed(was, now)) == Rename(s, fd, was, now)
  {
    hide Reaches, RenameEverywhere;
    var t, r := Relabelled(s, fd, was, now), Renamed(was, now);
    NotifyEachAt(t, names, r);
    forall x | x in t.clients
      ensures Heard(t, names, x) == Shared(t.users, t.channels, now, x)
    {
    }
    SameMap(NotifyEach(t, names, r).clients, Rename(s, fd, was, now).clients);
  }

  lemma NothingNotified(s: State, r: Reply)
    ensures NotifyEach(s, [], r) == s
  {
  }

  lemma NotifyEachStep(s: State, names: seq<Name>, i: nat, r: Reply)
    requires NicksOk(s.users, s.clients) && NoRepeats(names) && i < |names| && names[i] in s.channels
    ensures var t := NotifyEach(s, names[..i], r);
      && t.users == s.users && t.channels == s.channels && NicksOk(t.users, t.clients)
      && NotifyEach(s, names[..i + 1], r) == Notify(t, t.channels[names[i]], None, r)
  {
    hide Heard, Notify;
    assert names[..i + 1][..i] == names[..i];
    NotifyEachAt(s, names[..i], r);
    NicksDependOnNicks(s.users, s.clients, NotifyEach(s, names[..i], r).clients);
  }

  /** The channels of a user before a rename are those of its new nick after it. */
  lemma RenamedNames(s: State, fd: Fd, was: Nick, now: Nick, order: seq<Name>)
    requires Inv(s) && fd in s.clients && s.clients[fd].nick == Some(was) && now != "" && now !in s.users
    requires NoRepeats(order) && forall c :: c in order <==> c in s.channels
    ensures var t, names := Relabelled(s, fd, was, now), ChannelsOn(order, s.channels, was);
      && NicksOk(t.users, t.clients) && NoRepeats(names)
      && forall c :: c in names <==> c in t.channels && now in t.channels[c]
  {
    hide NicksOk, ClientsOk;
    RenamedNicks(s.users, s.clients, fd, was, now);
    ChannelsOnAreAll(order, s.channels, was);
    forall c | c in s.channels
      ensures now in RenameMember(s.channels[c], was, now) <==> was in s.channels[c]
    {
      assert now !in s.channels[c];
    }
  }

  // ---- counting connection states --------------------------------------------

  function Tally(order: seq<Fd>, clients: map<Fd, Client>, conn: Conn): nat {
    if order == [] then 0
    else
      var x := order[|order| - 1];
      Tally(order[..|order| - 1], clients, conn) + if x in clients && clients[x].conn == conn then 1 else 0
  }

  lemma EmptyTally(clients: map<Fd, Client>)
    ensures forall conn :: Tally([], clients, conn) == 0
  {
  }

  lemma TallyStep(order: seq<Fd>, i: nat, clients: map<Fd, Client>, conn: Conn)
    requires i < |order| && order[i] in clients
    ensures Tally(order[..i + 1], clients, conn)
         == Tally(order[..i], clients, conn) + if clients[order[i]].conn == conn then 1 else 0
  {
    assert order[..i + 1][..i] == order[..i];
  }

  function Among(order: seq<Fd>, clients: map<Fd, Client>, conn: Conn): set<Fd> {
    set x | x in order && x in clients && clients[x].conn == conn
  }

  lemma AmongLast(order: seq<Fd>, clients: map<Fd, Client>, conn: Conn)
    requires NoRepeats(order) && order != []
    ensures var before, x := order[..|order| - 1], order[|order| - 1];
      |Among(order, clients, conn)|
        == |Among(before, clients, conn)| + if x in clients && clients[x].conn == conn then 1 else 0
  {
    var before, x := order[..|order| - 1], order[|order| - 1];
    assert order == before + [x] && x !in before;
    if x in clients && clients[x].conn == conn {
      assert Among(order, clients, conn) == Among(before, clients, conn) + {x};
    } else {
      assert Among(order, clients, conn) == Among(before, clients, conn);
    }
  }

  lemma {:induction false} TallyCounts(order: seq<Fd>, clients: map<Fd, Client>, conn: Conn)
    requires NoRepeats(order)
    ensures Tally(order, clients, conn) == |Among(order, clients, conn)|
  {
    if order == [] {
      assert Among(order, clients, conn) == {};
    } else {
      TallyCounts(order[..|order| - 1], clients, conn);
      AmongLast(order, clients, conn);
    }
  }

  lemma TallyIsCount(order: seq<Fd>, clients: map<Fd, Client>, conn: Conn)
    requires NoRepeats(order) && forall x :: x in order <==> x in clients
    ensures Tally(order, clients, conn) == Count(clients, conn)
  {
    TallyCounts(order, clients, conn);
    var all := set x | x in clients && clients[x].conn == conn;
    forall x
      ensures x in Among(order, clients, conn) <==> x in all
    {
    }
    assert Among(order, clients, conn) == all;
  }
}
