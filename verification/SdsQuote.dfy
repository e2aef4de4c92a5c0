/** The quoting printer sdscatrepr and the argument scanner sdssplitargs. */
module SdsQuote {
  import opened Bits
  import opened Optional
  import opened SdsBuffer

  const BELL := '\U{0007}'
  const BACKSPACE := '\U{0008}'

  /** Characters stand for bytes. */
  predicate IsBytes(s: string) {
    forall i :: 0 <= i < |s| ==> s[i] as int < 0x100
  }

  /** The ASCII tables of isprint and isspace. */
  predicate IsPrint(c: char) {
    ' ' <= c <= '~'
  }

  predicate IsSpace(c: char) {
    c == ' ' || '\t' <= c <= '\r'
  }

  function HexDigit(d: nat): char
    requires d < 16
  {
    if d < 10 then ('0' as int + d) as char else ('a' as int + d - 10) as char
  }

  /** is_hex_digit. */
  predicate IsHexDigit(c: char) {
    '0' <= c <= '9' || 'a' <= c <= 'f' || 'A' <= c <= 'F'
  }

  /** hex_digit_to_int. */
  function HexValue(c: char): (v: nat)
    ensures v < 16
  {
    if '0' <= c <= '9' then c as int - '0' as int
    else if 'a' <= c <= 'f' then c as int - 'a' as int + 10
    else if 'A' <= c <= 'F' then c as int - 'A' as int + 10
    else 0
  }

  function Escape(c: char): string
    requires c as int < 0x100
  {
    if c == '\\' || c == '"' then ['\\', c]
    else if c == '\n' then "\\n"
    else if c == '\r' then "\\r"
    else if c == '\t' then "\\t"
    else if c == BELL then "\\a"
    else if c == BACKSPACE then "\\b"
    else if IsPrint(c) then [c]
    else ['\\', 'x', HexDigit(c as int / 16), HexDigit(c as int % 16)]
  }

  function EscapeAll(s: string): string
    requires IsBytes(s)
  {
    if s == "" then "" else Escape(s[0]) + EscapeAll(s[1..])
  }

  /** The quoted form of s. */
  function Repr(s: string): string
    requires IsBytes(s)
  {
    ['"'] + EscapeAll(s) + ['"']
  }

  /** Letters, digits, blanks and most other signs are printed as they are. */
  lemma {:induction false} PrintedAsIs(s: string)
    requires forall i :: 0 <= i < |s| ==> ' ' <= s[i] <= '~' && s[i] != '"' && s[i] != '\\'
    ensures IsBytes(s) && Repr(s) == "\"" + s + "\""
  {
    if s == "" {
    } else {
      PrintedAsIs(s[1..]);
      assert s == [s[0]] + s[1..];
      assert EscapeAll(s[1..]) == s[1..] by {
        assert Repr(s[1..])[1..|Repr(s[1..])| - 1] == EscapeAll(s[1..]);
        assert ("\"" + s[1..] + "\"")[1..|s[1..]| + 1] == s[1..];
      }
    }
  }

  /** Whatever the bytes, the printed form has printable characters only. */
  lemma {:induction false} AllPrintable(s: string)
    requires IsBytes(s)
    ensures forall i :: 0 <= i < |EscapeAll(s)| ==> ' ' <= EscapeAll(s)[i] <= '~'
    ensures forall i :: 0 <= i < |Repr(s)| ==> ' ' <= Repr(s)[i] <= '~'
  {
    if s == "" {
    } else {
      AllPrintable(s[1..]);
    }
  }

  function Unescape(c: char): char {
    match c
    case 'n' => '\n'
    case 'r' => '\r'
    case 't' => '\t'
    case 'b' => BACKSPACE
    case 'a' => BELL
    case _ => c
  }

  datatype Mode = Plain | InQuotes | InSingleQuotes

  /** Reads one argument from r: its value and what follows, or None when a quote is unbalanced. */
  function ScanArg(r: string, mode: Mode, cur: string): (a: Option<(string, string)>)
    ensures a.Some? ==> |a.value.1| <= |r| && (r != "" ==> |a.value.1| < |r|)
    decreases |r|
  {
    match mode
    case InQuotes =>
      if r == "" then None
      else if |r| >= 4 && r[0] == '\\' && r[1] == 'x' && IsHexDigit(r[2]) && IsHexDigit(r[3]) then
        ScanArg(r[4..], mode, cur + [(HexValue(r[2]) * 16 + HexValue(r[3])) as char])
      else if |r| >= 2 && r[0] == '\\' then ScanArg(r[2..], mode, cur + [Unescape(r[1])])
      else if r[0] == '"' then if |r| >= 2 && !IsSpace(r[1]) then None else Some((cur, r[1..]))
      else ScanArg(r[1..], mode, cur + [r[0]])
    case InSingleQuotes =>
      if r == "" then None
      else if |r| >= 2 && r[0] == '\\' && r[1] == '\'' then ScanArg(r[2..], mode, cur + ['\''])
      else if r[0] == '\'' then if |r| >= 2 && !IsSpace(r[1]) then None else Some((cur, r[1..]))
      else ScanArg(r[1..], mode, cur + [r[0]])
    case Plain =>
      if r == "" then Some((cur, ""))
      else if r[0] == ' ' || r[0] == '\n' || r[0] == '\r' || r[0] == '\t' then Some((cur, r[1..]))
      else if r[0] == '"' then ScanArg(r[1..], InQuotes, cur)
      else if r[0] == '\'' then ScanArg(r[1..], InSingleQuotes, cur)
      else ScanArg(r[1..], mode, cur + [r[0]])
  }

  /** The arguments of a line, or None when a quote is unbalanced. */
  function Args(r: string): Option<seq<string>>
    decreases |r|
  {
    if r == "" then Some([])
    else if IsSpace(r[0]) then Args(r[1..])
    else
      match ScanArg(r, Plain, "")
      case None => None
      case Some((t, rest)) =>
        match Args(rest)
        case None => None
        case Some(ts) => Some([t] + ts)
  }

  // ---- the round trip --------------------------------------------------------

  lemma HexRoundTrip(d: nat)
    requires d < 16
    ensures IsHexDigit(HexDigit(d)) && HexValue(HexDigit(d)) == d
  {
  }

  /** A scanner inside quotes reads back one escaped byte. */
  lemma ScanEscape(c: char, rest: string, cur: string)
    requires c as int < 0x100 && rest != ""
    ensures ScanArg(Escape(c) + rest, InQuotes, cur) == ScanArg(rest, InQuotes, cur + [c])
  {
    var r := Escape(c) + rest;
    if |Escape(c)| == 4 {
      HexRoundTrip(c as int / 16);
      HexRoundTrip(c as int % 16);
      assert r[4..] == rest;
    } else if |Escape(c)| == 2 {
      assert r[2..] == rest;
      assert r[1] != 'x';
    } else {
      assert r[1..] == rest;
    }
  }

  lemma ScanClosing(rest: string, cur: string)
    requires rest == "" || IsSpace(rest[0])
    ensures ScanArg(['"'] + rest, InQuotes, cur) == Some((cur, rest))
  {
    assert (['"'] + rest)[1..] == rest;
  }

  lemma {:induction false} ScanEscapeAll(s: string, rest: string, cur: string)
    requires IsBytes(s) && (rest == "" || IsSpace(rest[0]))
    ensures ScanArg(EscapeAll(s) + (['"'] + rest), InQuotes, cur) == Some((cur + s, rest))
    decreases |s|
  {
    hide ScanArg, Escape;
    if s == "" {
      assert EscapeAll(s) + (['"'] + rest) == ['"'] + rest && cur + s == cur;
      ScanClosing(rest, cur);
    } else {
      var tail := EscapeAll(s[1..]) + (['"'] + rest);
      assert EscapeAll(s) + (['"'] + rest) == Escape(s[0]) + tail;
      ScanEscape(s[0], tail, cur);
      ScanEscapeAll(s[1..], rest, cur + [s[0]]);
      assert cur + [s[0]] + s[1..] == cur + s;
    }
  }

  lemma ScanRepr(s: string, rest: string)
    requires IsBytes(s) && (rest == "" || IsSpace(rest[0]))
    ensures ScanArg(Repr(s) + rest, Plain, "") == Some((s, rest))
  {
    hide EscapeAll;
    var r := Repr(s) + rest;
    assert r[1..] == EscapeAll(s) + (['"'] + rest);
    ScanEscapeAll(s, rest, "");
    assert "" + s == s;
  }

  /** The quoted form is a C string even when the original holds zero bytes. */
  lemma {:induction false} NoZeroEscaped(s: string)
    requires IsBytes(s)
    ensures '\0' !in EscapeAll(s)
  {
    if s == "" {
    } else {
      NoZeroEscaped(s[1..]);
      assert '\0' !in Escape(s[0]);
    }
  }

  predicate Blank(g: string) {
    forall i :: 0 <= i < |g| ==> IsSpace(g[i])
  }

  lemma {:induction false} SkipBlanks(g: string, rest: string)
    requires Blank(g)
    ensures Args(g + rest) == Args(rest)
  {
    if g == "" {
      assert g + rest == rest;
    } else {
      assert (g + rest)[1..] == g[1..] + rest;
      SkipBlanks(g[1..], rest);
    }
  }

  /** Quoted strings with a gap before each and one after the last. */
  function Line(gaps: seq<string>, ts: seq<string>): string
    requires |gaps| == |ts| + 1 && forall i :: 0 <= i < |ts| ==> IsBytes(ts[i])
  {
    if ts == [] then gaps[0] else gaps[0] + (Repr(ts[0]) + Line(gaps[1..], ts[1..]))
  }

  /** The scanner undoes the printer, for any byte strings and any blanks between them. */
  lemma {:induction false} SplitArgsUndoesRepr(gaps: seq<string>, ts: seq<string>)
    requires |gaps| == |ts| + 1 && forall i :: 0 <= i < |ts| ==> IsBytes(ts[i])
    requires forall i :: 0 <= i < |gaps| ==> Blank(gaps[i])
    requires forall i :: 0 < i < |ts| ==> gaps[i] != ""
    ensures Args(Line(gaps, ts)) == Some(ts)
    ensures '\0' !in Line(gaps, ts)
    decreases |ts|
  {
    assert '\0' !in gaps[0];
    if ts == [] {
      SkipBlanks(gaps[0], "");
      assert gaps[0] + "" == gaps[0];
    } else {
      var rest := Line(gaps[1..], ts[1..]);
      SplitArgsUndoesRepr(gaps[1..], ts[1..]);
      SkipBlanks(gaps[0], Repr(ts[0]) + rest);
      assert rest == "" || IsSpace(rest[0]) by {
        if gaps[1] != "" {
          assert rest[0] == gaps[1][0];
        }
      }
      ScanRepr(ts[0], rest);
      NoZeroEscaped(ts[0]);
      assert [ts[0]] + ts[1..] == ts;
    }
  }

  // ---- the loops -------------------------------------------------------------

  lemma {:induction false} EscapeAllAppend(s: string, c: char)
    requires IsBytes(s + [c]) && IsBytes(s) && c as int < 0x100
    ensures EscapeAll(s + [c]) == EscapeAll(s) + Escape(c)
  {
    if s == "" {
      assert s + [c] == [c] && [c][1..] == "";
    } else {
      assert (s + [c])[1..] == s[1..] + [c];
      EscapeAllAppend(s[1..], c);
    }
  }

  lemma {:induction false} EscapeAllLength(s: string)
    requires IsBytes(s)
    ensures |EscapeAll(s)| <= 4 * |s|
  {
    if s == "" {
    } else {
      EscapeAllLength(s[1..]);
    }
  }

  /** The switch of sdscatrepr, on one byte. */
  method CatEscape(s: Sds, c: char)
    requires s.Valid() && c as int < 0x100 && s.len + 4 + MAX_PREALLOC < U64_SIZE
    modifies s, s.buf
    ensures s.Valid() && s.Content() == old(s.Content()) + Escape(c)
    ensures s.buf == old(s.buf) || fresh(s.buf)
  {
    if c == '\\' || c == '"' {
      s.CatLen(['\\', c]);
    } else if c == '\n' {
      s.CatLen("\\n");
    } else if c == '\r' {
      s.CatLen("\\r");
    } else if c == '\t' {
      s.CatLen("\\t");
    } else if c == BELL {
      s.CatLen("\\a");
    } else if c == BACKSPACE {
      s.CatLen("\\b");
    } else if IsPrint(c) {
      s.CatLen([c]);
    } else {
      s.CatLen(['\\', 'x', HexDigit(c as int / 16), HexDigit(c as int % 16)]);
    }
  }

  /** sdscatrepr. */
  method CatRepr(s: Sds, p: string)
    requires s.Valid() && IsBytes(p) && s.len + 4 * |p| + 2 + MAX_PREALLOC < U64_SIZE
    modifies s, s.buf
    ensures s.Valid() && s.Content() == old(s.Content()) + Repr(p)
    ensures s.buf == old(s.buf) || fresh(s.buf)
  {
    hide Escape, EscapeAll;
    ghost var before := s.Content();
    s.CatLen(['"']);
    NothingEscaped();
    for i := 0 to |p|
      invariant s.Valid() && (s.buf == old(s.buf) || fresh(s.buf))
      invariant s.Content() == before + (['"'] + EscapeAll(p[..i]))
    {
      assert p[..i + 1] == p[..i] + [p[i]];
      EscapeAllAppend(p[..i], p[i]);
      EscapeAllLength(p[..i]);
      CatEscape(s, p[i]);
    }
    assert p[..|p|] == p;
    EscapeAllLength(p);
    s.CatLen(['"']);
  }

  lemma NothingEscaped()
    ensures EscapeAll("") == ""
  {
  }

  /** The byte at p, or the terminator of the C string. */
  function At(line: string, p: nat): char
    requires p <= |line|
  {
    if p < |line| then line[p] else '\0'
  }

  function ModeOf(inq: bool, insq: bool): Mode {
    if inq then InQuotes else if insq then InSingleQuotes else Plain
  }

  /** What reading on from p has to give. */
  function Rest(line: string, p: nat, inq: bool, insq: bool, done: bool, current: string): Option<(string, string)>
    requires p <= |line|
  {
    if done then Some((current, line[p..])) else ScanArg(line[p..], ModeOf(inq, insq), current)
  }

  lemma Shorter(line: string, p: nat)
    requires p <= |line|
    ensures forall k :: 0 <= k <= |line| - p ==> line[p..][k..] == line[p + k..]
  {
  }

  /** One turn inside double quotes; bad is the jump to the error exit. */
  method QuotedTurn(line: string, p0: nat, current0: string)
    returns (bad: bool, done: bool, p: nat, current: string)
    requires '\0' !in line && p0 <= |line|
    ensures p0 <= p <= |line| && (!bad ==> p0 < p)
    ensures Rest(line, p0, true, false, false, current0)
         == if bad then None else Rest(line, p, true, false, done, current)
  {
    bad, done, p, current := false, false, p0, current0;
    Shorter(line, p);
    if At(line, p) == '\\' && At(line, p + 1) == 'x' && IsHexDigit(At(line, p + 2)) && IsHexDigit(At(line, p + 3)) {
      current := current + [(HexValue(line[p + 2]) * 16 + HexValue(line[p + 3])) as char];
      p := p + 3;
    } else if At(line, p) == '\\' && At(line, p + 1) != '\0' {
      p := p + 1;
      current := current + [Unescape(line[p])];
    } else if At(line, p) == '"' {
      if At(line, p + 1) != '\0' && !IsSpace(At(line, p + 1)) {
        bad := true;
      }
      done := true;
    } else if At(line, p) == '\0' {
      bad := true;
    } else {
      current := current + [line[p]];
    }
    if At(line, p) != '\0' {
      p := p + 1;
    }
  }

  /** One turn inside single quotes. */
  method SingleQuotedTurn(line: string, p0: nat, current0: string)
    returns (bad: bool, done: bool, p: nat, current: string)
    requires '\0' !in line && p0 <= |line|
    ensures p0 <= p <= |line| && (!bad ==> p0 < p)
    ensures Rest(line, p0, false, true, false, current0)
         == if bad then None else Rest(line, p, false, true, done, current)
  {
    bad, done, p, current := false, false, p0, current0;
    Shorter(line, p);
    if At(line, p) == '\\' && At(line, p + 1) == '\'' {
      p := p + 1;
      current := current + "'";
    } else if At(line, p) == '\'' {
      if At(line, p + 1) != '\0' && !IsSpace(At(line, p + 1)) {
        bad := true;
      }
      done := true;
    } else if At(line, p) == '\0' {
      bad := true;
    } else {
      current := current + [line[p]];
    }
    if At(line, p) != '\0' {
      p := p + 1;
    }
  }

  /** One turn outside quotes. */
  method PlainTurn(line: string, p0: nat, current0: string)
    returns (inq: bool, insq: bool, done: bool, p: nat, current: string)
    requires '\0' !in line && p0 <= |line|
    ensures p0 <= p <= |line| && (p0 < |line| || !done ==> p0 < p) && !(inq && insq)
    ensures Rest(line, p0, false, false, false, current0) == Rest(line, p, inq, insq, done, current)
  {
    inq, insq, done, p, current := false, false, false, p0, current0;
    Shorter(line, p);
    match At(line, p) {
      case ' ' => done := true;
      case '\n' => done := true;
      case '\r' => done := true;
      case '\t' => done := true;
      case '\0' => done := true;
      case '"' => inq := true;
      case '\'' => insq := true;
      case _ => current := current + [line[p]];
    }
    if At(line, p) != '\0' {
      p := p + 1;
    }
  }

  /** The token loop of sdssplitargs: None is the jump to its error exit. */
  method NextArg(line: string, p0: nat) returns (arg: Option<string>, p: nat)
    requires '\0' !in line && p0 < |line|
    ensures match ScanArg(line[p0..], Plain, "")
            case None => arg == None
            case Some((t, rest)) => arg == Some(t) && p0 < p <= |line| && line[p..] == rest
  {
    hide ScanArg;
    var inq, insq, done, current := false, false, false, "";
    p := p0;
    ghost var goal := ScanArg(line[p0..], Plain, "");
    while !done
      invariant p0 <= p <= |line| && (done ==> p0 < p) && !(inq && insq)
      invariant goal == Rest(line, p, inq, insq, done, current)
      decreases !done, |line| - p
    {
      var bad := false;
      if inq {
        bad, done, p, current := QuotedTurn(line, p, current);
      } else if insq {
        bad, done, p, current := SingleQuotedTurn(line, p, current);
      } else {
        inq, insq, done, p, current := PlainTurn(line, p, current);
      }
      if bad {
        return None, p;
      }
    }
    arg := Some(current);
  }

  /** What the arguments found so far and those of the rest of the line make together. */
  function Prepended(ts: seq<string>, rest: Option<seq<string>>): Option<seq<string>> {
    match rest
    case None => None
    case Some(us) => Some(ts + us)
  }

  lemma ArgsStep(r: string, ts: seq<string>)
    requires r != "" && !IsSpace(r[0])
    ensures Prepended(ts, Args(r)) ==
            match ScanArg(r, Plain, "")
            case None => None
            case Some((t, rest)) => Prepended(ts + [t], Args(rest))
  {
    match ScanArg(r, Plain, "")
    case None =>
    case Some((t, rest)) =>
      match Args(rest)
      case None =>
      case Some(us) => assert ts + ([t] + us) == (ts + [t]) + us;
  }

  /** sdssplitargs: None stands for the null result on unbalanced quotes. */
  method SplitArgs(line: string) returns (vector: Option<seq<string>>)
    requires '\0' !in line
    ensures vector == Args(line)
  {
    hide ScanArg;
    var p, args := 0, [];
    assert line[0..] == line;
    assert Prepended([], Args(line)) == Args(line) by {
      match Args(line)
      case None =>
      case Some(us) => assert [] + us == us;
    }
    while true
      invariant p <= |line| && Prepended(args, Args(line[p..])) == Args(line)
      decreases |line| - p
    {
      while p < |line| && IsSpace(line[p])
        invariant p <= |line| && Prepended(args, Args(line[p..])) == Args(line)
      {
        assert line[p..][1..] == line[p + 1..];
        p := p + 1;
      }
      if p == |line| {
        assert Args(line[p..]) == Some([]) && args + [] == args;
        return Some(args);
      }
      ArgsStep(line[p..], args);
      var arg;
      arg, p := NextArg(line, p);
      match arg {
        case None => return None;
        case Some(t) => args := args + [t];
      }
    }
  }
}
