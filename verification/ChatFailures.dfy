/**
  Runs that show what goes wrong outside the assumptions: every run here is legal up to its
  last step, and that step crashes the code or breaks the invariant.
 */
module ChatFailures {
  import opened Optional
  import opened ChatState
  import opened ChatInvariant
  import opened ChatDelivery

  const FRESH: State := State("pw", map[], map[], map[], 0)

  /** A legal run, and what it leads to. */
  ghost predicate LeadsTo(run: seq<Step>, s: State) {
    LegalRun("pw", run) && After("pw", run) == s
  }

  lemma Nowhere()
    ensures LeadsTo([], FRESH)
  {
  }

  lemma Extended(run: seq<Step>, s: State, step: Step)
    requires LeadsTo(run, s) && Legal(s, step)
    ensures Present(s, step) && !Crashes(s, step) && LeadsTo(run + [step], Take(s, step))
  {
    hide Take, Legal;
    assert (run + [step])[..|run|] == run;
    LegalIsPresent(s, step);
  }

  // ---- the states on the way -------------------------------------------------

  /** Client 1 is connected and has said nothing. */
  predicate Silent(s: State) {
    s.password == "pw" && s.users == map[] && s.channels == map[] && s.ops == 0
    && s.clients.Keys == {1} && s.clients[1] == NEW_CLIENT
  }

  /** Client 1 has the nick a and no user name. */
  predicate Nicked(s: State) {
    s.password == "pw" && s.users == map["a" := 1] && s.channels == map[] && s.ops == 0
    && s.clients.Keys == {1} && s.clients[1].nick == Some("a") && s.clients[1].username == None
    && !s.clients[1].registered && !s.clients[1].oper
  }

  /** Client 1 is registered as a. */
  predicate Alone(s: State) {
    s.password == "pw" && s.users == map["a" := 1] && s.channels == map[] && s.ops == 0
    && s.clients.Keys == {1} && s.clients[1].nick == Some("a") && s.clients[1].registered && !s.clients[1].oper
  }

  /** And on a channel. */
  predicate OnChannel(s: State) {
    s.users == map["a" := 1] && s.channels.Keys == {"#c"} && "a" in s.channels["#c"]
    && s.clients.Keys == {1} && s.clients[1].nick == Some("a") && s.clients[1].registered
  }

  lemma ReachSilent() returns (run: seq<Step>, s: State)
    ensures LeadsTo(run, s) && Silent(s)
  {
    Nowhere();
    Extended([], FRESH, Connect(1));
    run, s := [] + [Connect(1)], Take(FRESH, Connect(1));
  }

  lemma ReachNicked() returns (run: seq<Step>, s: State)
    ensures LeadsTo(run, s) && Nicked(s)
  {
    hide LusersReply;
    var run0, s0 := ReachSilent();
    var nick := Do(1, NICK(["a"]));
    Extended(run0, s0, nick);
    run, s := run0 + [nick], Take(s0, nick);
  }

  lemma ReachAlone() returns (run: seq<Step>, s: State)
    ensures LeadsTo(run, s) && Alone(s)
  {
    hide LusersReply;
    var run0, s0 := ReachNicked();
    var user := Do(1, USER(["u", "0", "*", "r"]));
    Extended(run0, s0, user);
    run, s := run0 + [user], Take(s0, user);
  }

  lemma ReachOnChannel() returns (run: seq<Step>, s: State)
    ensures LeadsTo(run, s) && OnChannel(s)
  {
    var run0, s0 := ReachAlone();
    var join := Do(1, JOIN(["#c"]));
    Extended(run0, s0, join);
    run, s := run0 + [join], Take(s0, join);
  }

  // ---- what goes wrong -------------------------------------------------------

  /** One client sends OPER twice: LUSERS then reports two operators where there is one. */
  lemma TwoOpersOneOperator() returns (run: seq<Step>, s: State)
    ensures LeadsTo(run, s) && s.ops == 2 && Operators(s.clients) == {1}
  {
    hide LusersReply;
    var run0, s0 := ReachAlone();
    var oper := Do(1, OPER(["a", "pw"]));
    Extended(run0, s0, oper);
    var s1 := Take(s0, oper);
    Extended(run0 + [oper], s1, oper);
    run, s := run0 + [oper] + [oper], Take(s1, oper);
  }

  /** A client that never took a nick disconnects from an empty user table. */
  lemma EmptyTableCrash() returns (run: seq<Step>, s: State)
    ensures LeadsTo(run, s) && Present(s, Disconnect(1)) && Crashes(s, Disconnect(1))
    ensures s.clients[1].nick == None && s.users == map[]
  {
    run, s := ReachSilent();
  }

  /** A client that never took a nick disconnects: the other client's nick is lost. */
  lemma NamelessLeaves() returns (run: seq<Step>, s: State)
    ensures LeadsTo(run, s) && Present(s, Disconnect(2)) && !Crashes(s, Disconnect(2)) && !Inv(Take(s, Disconnect(2)))
    ensures "a" in s.users && Take(s, Disconnect(2)).users == map[]
  {
    var run0, s0 := ReachNicked();
    Extended(run0, s0, Connect(2));
    run, s := run0 + [Connect(2)], Take(s0, Connect(2));
    ReachableInv("pw", run);
    DisconnectExact(s, 2);
  }

  /** A client disconnects while it is on a channel. */
  lemma MemberLeaves() returns (run: seq<Step>, s: State)
    ensures LeadsTo(run, s) && Present(s, Disconnect(1)) && !Crashes(s, Disconnect(1)) && !Inv(Take(s, Disconnect(1)))
  {
    run, s := ReachOnChannel();
    ReachableInv("pw", run);
    DisconnectExact(s, 1);
  }

  /** A client takes a second nick before it is registered. */
  lemma TwoNicks() returns (run: seq<Step>, s: State)
    ensures var nick := Do(1, NICK(["b"]));
      LeadsTo(run, s) && Present(s, nick) && !Crashes(s, nick) && !Inv(Take(s, nick))
  {
    run, s := ReachNicked();
    ReachableInv("pw", run);
    ReenteringExact(s, 1, ["b"]);
  }

  /**
    The strings of the sender's record and of the message that a request's replies are
    formatted from, None being a null pointer. In some replies "*" stands for a missing nick.
   */
  function Formatted(s: State, fd: Fd, request: Request): seq<Option<string>>
    requires fd in s.clients
  {
    var c := s.clients[fd];
    match request
    case NICK(params) =>
      if |params| < 1 || params[0] == "" || params[0] in s.users then []
      else if c.registered then [c.nick, c.username, Some(params[0])]
      else if c.username.Some? then [Some(params[0]), c.username]
      else []
    case USER(params) =>
      if c.registered || |params| < 4 then [c.nick]
      else if c.nick.Some? then [c.nick, Some(params[0])]
      else []
    case PART(params, longlast) =>
      if !c.registered then []
      else if |params| >= 1 && params[0] in s.channels && c.nick.Some? && c.nick.value in s.channels[params[0]] then
        [c.nick, c.username, Some(params[0])]
          + if longlast then [if |params| > 1 then Some(params[1]) else None] else []
      else [c.nick]
    case _ => if c.registered then [c.nick, c.username] else []
  }

  /** A request crashes exactly when an absent string is among those its replies are formatted from. */
  lemma CrashesExact(s: State, fd: Fd, request: Request)
    requires Inv(s) && fd in s.clients
    ensures Crashes(s, Do(fd, request)) <==> None in Formatted(s, fd, request)
  {
    assert ClientOk(s.clients[fd]);
  }

  /** USER with too few parameters, and no nick to say it to. */
  lemma UserWithoutNick() returns (run: seq<Step>, s: State)
    ensures LeadsTo(run, s) && Present(s, Do(1, USER([]))) && Crashes(s, Do(1, USER([])))
    ensures None in Formatted(s, 1, USER([]))
  {
    run, s := ReachSilent();
  }

  /** PART with nothing but a trailing parameter. */
  lemma PartTrailing() returns (run: seq<Step>, s: State)
    ensures var part := PART(["#c"], true);
      LeadsTo(run, s) && Present(s, Do(1, part)) && Crashes(s, Do(1, part)) && None in Formatted(s, 1, part)
  {
    run, s := ReachOnChannel();
    assert ["#c"][0] == "#c";
    ReachableInv("pw", run);
    CrashesExact(s, 1, PART(["#c"], true));
  }
}
