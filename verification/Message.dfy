/** One protocol message: a command, at most fifteen parameters, and whether the last one may hold spaces. */
module Message {
  import opened Optional
  import opened SdsBuffer
  import opened SdsSplit

  const MAX_PARAMS := 15

  /** What a parsed message says. */
  datatype Parsed = Parsed(cmd: string, params: seq<string>, longlast: bool)

  class Msg {
    var cmd: Option<string>
    const params: array<Option<string>>
    var nparams: nat
    var longlast: bool

    /** A zeroed message, as calloc leaves it. */
    constructor ()
      ensures cmd == None && nparams == 0 && !longlast && fresh(params) && params.Length == MAX_PARAMS
      ensures forall i :: 0 <= i < MAX_PARAMS ==> params[i] == None
    {
      cmd, nparams, longlast := None, 0, false;
      params := new Option<string>[MAX_PARAMS](_ => None);
    }

    /** The message is what parsing this line leaves in a zeroed one. */
    ghost predicate Reads(line: string)
      requires InBounds(line)
      reads this, params
    {
      && cmd == Some(Words(line)[0]) && longlast == HasColon(line) && nparams == Stored(line)
      && params.Length == MAX_PARAMS && forall k :: 0 <= k < MAX_PARAMS ==> params[k] == Slot(line, k)
    }

    /** The message says p. */
    ghost predicate Says(p: Parsed)
      reads this, params
    {
      && cmd == Some(p.cmd) && longlast == p.longlast
      && nparams == |p.params| <= params.Length
      && forall i :: 0 <= i < nparams ==> params[i] == Some(p.params[i])
    }
  }

  // ---- what a line means -----------------------------------------------------

  /** The part of the line before its first colon. */
  function BeforeColon(s: string): string
    requires s != ""
  {
    Split(s, ":")[0]
  }

  function HasColon(s: string): bool
    requires s != ""
  {
    |Split(s, ":")| > 1
  }

  /** There is something before the first colon. */
  predicate Starts(s: string) {
    s != "" && BeforeColon(s) != ""
  }

  /** The words before the colon. */
  function Words(s: string): (ts: seq<string>)
    requires Starts(s)
    ensures ts != []
  {
    Split(BeforeColon(s), " ")
  }

  function NonEmpty(ts: seq<string>): (n: nat)
    ensures n <= |ts|
  {
    if ts == [] then 0 else NonEmpty(ts[..|ts| - 1]) + if ts[|ts| - 1] != "" then 1 else 0
  }

  /** No parameter comes behind an empty one. */
  predicate Placed(ts: seq<string>) {
    ts != [] && forall i, j :: 0 < i < j < |ts| && ts[i] == "" ==> ts[j] == ""
  }

  function Middle(ts: seq<string>): seq<string>
    requires ts != []
  {
    ts[1..1 + NonEmpty(ts[1..])]
  }

  /** A command is there, and what is stored goes into the parameter array. */
  predicate InBounds(s: string) {
    && Starts(s)
    && (forall i :: MAX_PARAMS < i < |Words(s)| ==> Words(s)[i] == "")
    && (HasColon(s) ==> NonEmpty(Words(s)[1..]) < MAX_PARAMS)
  }

  function Trailing(s: string): string
    requires s != ""
  {
    Slice(s, |BeforeColon(s)| + 1, |s| - 1)
  }

  /** What slot k of the parameter array receives: words by position, the trailing parameter by count. */
  function Slot(s: string, k: nat): Option<string>
    requires Starts(s)
  {
    if HasColon(s) && k == NonEmpty(Words(s)[1..]) then Some(Trailing(s))
    else if k + 1 < |Words(s)| && Words(s)[k + 1] != "" then Some(Words(s)[k + 1])
    else None
  }

  function Stored(s: string): nat
    requires Starts(s)
  {
    NonEmpty(Words(s)[1..]) + if HasColon(s) then 1 else 0
  }

  /** The line can be parsed in place and every parameter it counts is there. */
  predicate Parsable(s: string) {
    InBounds(s) && Placed(Words(s))
  }

  function Parse(s: string): Parsed
    requires Parsable(s)
  {
    if HasColon(s) then Parsed(Words(s)[0], Middle(Words(s)) + [Trailing(s)], true)
    else Parsed(Words(s)[0], Middle(Words(s)), false)
  }

  // ---- position and count ----------------------------------------------------

  lemma {:induction false} CountOfPrefix(ts: seq<string>, n: nat)
    requires n <= |ts|
    requires (forall i :: 0 <= i < n ==> ts[i] != "") && forall i :: n <= i < |ts| ==> ts[i] == ""
    ensures NonEmpty(ts) == n
  {
    if ts == [] {
    } else {
      CountOfPrefix(ts[..|ts| - 1], if n == |ts| then n - 1 else n);
    }
  }

  lemma {:induction false} CountBeyond(ts: seq<string>, i: nat, j: nat)
    requires i < j < |ts| && ts[j] != "" && forall k :: 0 <= k < i ==> ts[k] != ""
    ensures NonEmpty(ts) > i
  {
    var front := ts[..|ts| - 1];
    if j < |front| {
      CountBeyond(front, i, j);
    } else {
      CountAtLeast(front, i);
    }
  }

  lemma {:induction false} CountAtLeast(ts: seq<string>, i: nat)
    requires i <= |ts| && forall k :: 0 <= k < i ==> ts[k] != ""
    ensures NonEmpty(ts) >= i
  {
    if ts == [] {
    } else {
      CountAtLeast(ts[..|ts| - 1], if i == |ts| then i - 1 else i);
    }
  }

  lemma FirstEmpty(ts: seq<string>) returns (n: nat)
    ensures n <= |ts| && (forall k :: 0 <= k < n ==> ts[k] != "") && (n < |ts| ==> ts[n] == "")
  {
    n := 0;
    while n < |ts| && ts[n] != ""
      invariant n <= |ts| && forall k :: 0 <= k < n ==> ts[k] != ""
    {
      n := n + 1;
    }
  }

  /** The words that count come first. */
  lemma PlacedFirst(ts: seq<string>)
    requires Placed(ts)
    ensures var n := NonEmpty(ts[1..]);
      (forall k :: 0 < k <= n ==> ts[k] != "") && forall k :: n < k < |ts| ==> ts[k] == ""
  {
    var n := FirstEmpty(ts[1..]);
    assert forall k :: 0 <= k < |ts| - 1 ==> ts[1..][k] == ts[k + 1];
    assert forall k :: n <= k < |ts| - 1 ==> ts[1..][k] == "";
    CountOfPrefix(ts[1..], n);
  }

  /** Every counted slot of the array is filled exactly when no parameter follows an empty one. */
  lemma SlotsFilledExact(s: string)
    requires InBounds(s)
    ensures (forall k :: 0 <= k < Stored(s) ==> Slot(s, k).Some?) <==> Placed(Words(s))
  {
    var ts := Words(s);
    if Placed(ts) {
      PlacedFirst(ts);
    } else {
      var i := FirstEmpty(ts[1..]);
      var a, b :| 0 < a < b < |ts| && ts[a] == "" && ts[b] != "";
      assert i <= a - 1;
      assert ts[1..][b - 1] != "";
      CountBeyond(ts[1..], i, b - 1);
      assert Slot(s, i) == None;
    }
  }

  /** The slots of a line that can be parsed hold its parameters. */
  lemma SlotsSay(s: string)
    requires Parsable(s)
    ensures Stored(s) == |Parse(s).params| <= MAX_PARAMS
    ensures forall k :: 0 <= k < Stored(s) ==> Slot(s, k) == Some(Parse(s).params[k])
  {
    PlacedFirst(Words(s));
    var n := NonEmpty(Words(s)[1..]);
    assert n > 0 ==> Words(s)[n] != "";
  }

  lemma ReadsSays(msg: Msg, s: string)
    requires Parsable(s) && msg.Reads(s)
    ensures msg.Says(Parse(s))
  {
    SlotsSay(s);
  }

  // ---- message_from_string ---------------------------------------------------

  /** The parameter loop. */
  method FillParams(msg: Msg, tokens: array<string>, count: nat)
    requires 0 < count <= tokens.Length && forall i :: MAX_PARAMS < i < count ==> tokens[i] == ""
    requires msg.params.Length == MAX_PARAMS
    modifies msg`nparams, msg.params
    ensures msg.nparams == NonEmpty(tokens[..count][1..])
    ensures forall k :: 0 <= k < MAX_PARAMS ==>
      msg.params[k] == if k + 1 < count && tokens[k + 1] != "" then Some(tokens[k + 1]) else old(msg.params[k])
  {
    ghost var words := tokens[..count][1..];
    msg.nparams := 0;
    for i := 0 to count - 1
      invariant msg.nparams == NonEmpty(words[..i])
      invariant forall k :: 0 <= k < MAX_PARAMS ==>
        msg.params[k] == if k < i && tokens[k + 1] != "" then Some(tokens[k + 1]) else old(msg.params[k])
    {
      assert words[..i + 1][..i] == words[..i] && words[i] == tokens[i + 1];
      if |tokens[i + 1]| > 0 {
        msg.params[i] := Some(tokens[i + 1]);
        msg.nparams := msg.nparams + 1;
      }
    }
    assert words[..count - 1] == words;
  }

  lemma LineParts(s: string)
    requires InBounds(s)
    ensures var split := Split(s, ":");
      && |split| > 0 && split[0] == BeforeColon(s) != "" && (HasColon(s) <==> |split| > 1)
      && Split(split[0], " ") == Words(s) != [] && (forall i :: MAX_PARAMS < i < |Words(s)| ==> Words(s)[i] == "")
      && (|split| > 1 ==> NonEmpty(Words(s)[1..]) < MAX_PARAMS)
  {
  }

  /** message_from_string; the line itself is cut down to its trailing parameter. */
  method MessageFromString(msg: Msg, s: Sds) returns (rv: int)
    requires s.Valid() && (s.Content() == "" || InBounds(s.Content()))
    requires msg.params.Length == MAX_PARAMS
    modifies msg, msg.params, s, s.buf
    ensures rv == if old(s.Content()) == "" then -1 else 0
    ensures rv == 0 && (forall k :: 0 <= k < MAX_PARAMS ==> old(msg.params[k]) == None) ==> msg.Reads(old(s.Content()))
    ensures rv == 0 ==>
      && msg.cmd == Some(Words(old(s.Content()))[0]) && msg.longlast == HasColon(old(s.Content()))
      && msg.nparams == Stored(old(s.Content()))
      && forall k :: 0 <= k < MAX_PARAMS ==>
           msg.params[k] == if Slot(old(s.Content()), k).Some? then Slot(old(s.Content()), k) else old(msg.params[k])
  {
    hide InBounds, Words, NonEmpty, Split, Slice;
    if s.len == 0 {
      return -1;
    }
    LineParts(s.Content());
    var line := s.buf[..s.len];
    var split, count1 := SplitLen(line, ":");
    var before := split[0];
    assert before == split[..count1][0];
    var tokens, count2 := SplitLen(before, " ");
    assert tokens[..count2] == Words(line);
    assert tokens[0] == tokens[..count2][0];
    msg.cmd := Some(tokens[0]);
    FillParams(msg, tokens, count2);
    if count1 > 1 {
      s.Range(|before| + 1, s.len - 1);
      msg.params[msg.nparams] := Some(s.buf[..s.len]);
      msg.nparams := msg.nparams + 1;
      msg.longlast := true;
    } else {
      msg.longlast := false;
    }
    return 0;
  }

  // ---- rendering and its inverse ---------------------------------------------

  /** A message to send: middle parameters and an optional trailing one. */
  datatype Outgoing = Outgoing(cmd: string, middle: seq<string>, trailing: Option<string>)

  /** A command or middle parameter of RFC 2812, section 2.3.1. */
  predicate IsToken(t: string) {
    t != "" && ' ' !in t && ':' !in t && '\r' !in t && '\n' !in t
  }

  predicate IsTrailing(t: string) {
    '\r' !in t && '\n' !in t
  }

  function Body(m: Outgoing): string {
    Join([m.cmd] + m.middle, " ") + if m.trailing.Some? then " :" + m.trailing.value else ""
  }

  /** Sections 2.3 and 2.3.1 of RFC 2812: tokens, fifteen parameters in all, 510 characters before CR LF. */
  predicate WellFormed(m: Outgoing) {
    && IsToken(m.cmd) && (forall i :: 0 <= i < |m.middle| ==> IsToken(m.middle[i]))
    && (m.trailing.Some? ==> IsTrailing(m.trailing.value))
    && |m.middle| + (if m.trailing.Some? then 1 else 0) <= MAX_PARAMS
    && |Body(m)| <= 510
  }

  function Meaning(m: Outgoing): Parsed {
    if m.trailing.Some? then Parsed(m.cmd, m.middle + [m.trailing.value], true) else Parsed(m.cmd, m.middle, false)
  }

  lemma {:induction false} JoinFree(ts: seq<string>, sep: string, c: char)
    requires Free(c, ts) && c !in sep
    ensures c !in Join(ts, sep)
  {
    if |ts| <= 1 {
    } else {
      JoinFree(ts[1..], sep, c);
    }
  }

  /** A line that is x, then a colon, then anything. */
  lemma SplitAtColon(x: string, t: string)
    requires x != "" && ':' !in x
    ensures var s := x + ([':'] + t);
            BeforeColon(s) == x && HasColon(s) && Slice(s, |x| + 1, |s| - 1) == t
  {
    OneByte(x, ':');
    ScanToken("", x, [':'], t);
    assert "" + x == x;
  }

  lemma SplitWithoutColon(x: string)
    requires x != "" && ':' !in x
    ensures BeforeColon(x) == x && !HasColon(x)
  {
    OneByte(x, ':');
    ScanLastToken("", x, [':']);
    assert "" + x == x;
  }

  lemma SplitWordsAndSpace(ts: seq<string>)
    requires ts != [] && Free(' ', ts)
    ensures Split(Join(ts, " ") + " ", " ") == ts + [""]
  {
    hide Join, Split;
    assert [' '] == " " && " " + "" == " ";
    JoinAppend(ts, "", " ");
    assert |ts + [""]| > 1;
    JoinThenSplitByte(ts + [""], ' ');
  }

  lemma MiddleOf(cmd: string, middle: seq<string>, blanks: seq<string>)
    requires (forall i :: 0 <= i < |middle| ==> middle[i] != "") && forall i :: 0 <= i < |blanks| ==> blanks[i] == ""
    ensures var ts := [cmd] + middle + blanks;
      Placed(ts) && NonEmpty(ts[1..]) == |middle| && Middle(ts) == middle
  {
    var ts := [cmd] + middle + blanks;
    assert ts[1..] == middle + blanks;
    CountOfPrefix(ts[1..], |middle|);
  }

  lemma TrailingParts(ts: seq<string>, words: string, t: string)
    requires ts != [] && words != "" && ':' !in words && words == Join(ts, " ") && Free(' ', ts)
    ensures var s := words + (" :" + t);
      Starts(s) && HasColon(s) && Words(s) == ts + [""] && Trailing(s) == t
  {
    hide Split, Slice, Join;
    var s := words + (" :" + t);
    assert s == (words + " ") + ([':'] + t);
    SplitWordsAndSpace(ts);
    SplitAtColon(words + " ", t);
  }

  lemma ParseTrailing(cmd: string, middle: seq<string>, words: string, t: string)
    requires words != "" && ':' !in words && words == Join([cmd] + middle, " ") && Free(' ', [cmd] + middle)
    requires (forall i :: 0 <= i < |middle| ==> middle[i] != "") && |middle| < MAX_PARAMS
    ensures var s := words + (" :" + t);
            Parsable(s) && Parse(s) == Parsed(cmd, middle + [t], true)
  {
    hide Words, HasColon, Trailing, Starts, NonEmpty, Placed, Middle, Join;
    TrailingParts([cmd] + middle, words, t);
    MiddleOf(cmd, middle, [""]);
  }

  lemma ParseMiddle(cmd: string, middle: seq<string>, words: string)
    requires words != "" && ':' !in words && words == Join([cmd] + middle, " ") && Free(' ', [cmd] + middle)
    requires cmd != "" && (forall i :: 0 <= i < |middle| ==> middle[i] != "") && |middle| <= MAX_PARAMS
    ensures Parsable(words) && Parse(words) == Parsed(cmd, middle, false)
  {
    hide Tokens, Slice, Join;
    var ts := [cmd] + middle;
    assert [' '] == " ";
    assert ts[0] == cmd && ts != [""];
    JoinThenSplitByte(ts, ' ');
    SplitWithoutColon(words);
    assert Split(BeforeColon(words), " ") == ts;
    MiddleOf(cmd, middle, []);
    assert ts + [] == ts;
  }

  /** Parsing undoes rendering. */
  lemma ParseUndoesBody(m: Outgoing)
    requires WellFormed(m)
    ensures Parsable(Body(m)) && Parse(Body(m)) == Meaning(m)
  {
    hide Parsable, Parse, Join;
    var ts := [m.cmd] + m.middle;
    var words := Join(ts, " ");
    assert Free(':', ts) && Free(' ', ts);
    JoinFree(ts, " ", ':');
    assert [' '] == " " && ts[0] == m.cmd && ts != [""];
    JoinIsEmpty(ts, " ");
    if m.trailing.Some? {
      ParseTrailing(m.cmd, m.middle, words, m.trailing.value);
    } else {
      assert words + "" == words;
      ParseMiddle(m.cmd, m.middle, words);
    }
  }

  /** Two blanks in a row: one parameter is counted, the slot for it is empty, and the next one has it. */
  lemma BlankLeavesHole()
    ensures InBounds("JOIN  #a") && Stored("JOIN  #a") == 1
    ensures Slot("JOIN  #a", 0) == None && Slot("JOIN  #a", 1) == Some("#a")
  {
    var line, ts := "JOIN  #a", ["JOIN", "", "#a"];
    assert Join(ts, " ") == line && [' '] == " " by {
      assert ts[1..] == ["", "#a"] && ts[1..][1..] == ["#a"];
    }
    JoinThenSplitByte(ts, ' ');
    SplitWithoutColon(line);
    assert ts[1..][..1] == [""] && [""][..0] == [];
    assert NonEmpty(ts[1..]) == 1;
  }
}
