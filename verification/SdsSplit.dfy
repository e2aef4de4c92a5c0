/** Splitting a byte string at a separator, and joining tokens with one. */
module SdsSplit {
  import opened Bits
  import opened SdsBuffer

  /** The tokens of cur + rest, where cur is the token being read and rest is still to be searched. */
  function Tokens(cur: string, rest: string, sep: string): (ts: seq<string>)
    requires sep != ""
    ensures |ts| > 0
    decreases |rest|
  {
    if |rest| < |sep| then [cur + rest]
    else if rest[..|sep|] == sep then [cur] + Tokens("", rest[|sep|..], sep)
    else Tokens(cur + [rest[0]], rest[1..], sep)
  }

  /** The empty string has no tokens at all. */
  function Split(s: string, sep: string): seq<string>
    requires sep != ""
  {
    if s == "" then [] else Tokens("", s, sep)
  }

  function Join(ts: seq<string>, sep: string): string {
    if ts == [] then ""
    else if |ts| == 1 then ts[0]
    else ts[0] + (sep + Join(ts[1..], sep))
  }

  ghost predicate OccursAt(sep: string, t: string, i: nat) {
    i + |sep| <= |t| && t[i..i + |sep|] == sep
  }

  ghost predicate Occurs(sep: string, t: string) {
    exists i :: OccursAt(sep, t, i)
  }

  // ---- split, then join ------------------------------------------------------

  lemma {:induction false} JoinTokens(cur: string, rest: string, sep: string)
    requires sep != ""
    ensures Join(Tokens(cur, rest, sep), sep) == cur + rest
    decreases |rest|
  {
    if |rest| < |sep| {
    } else {
      if rest[..|sep|] == sep {
        var r := rest[|sep|..];
        var ts := Tokens("", r, sep);
        JoinTokens("", r, sep);
        assert "" + r == r;
        assert ([cur] + ts)[1..] == ts;
        assert rest == sep + r;
      } else {
        JoinTokens(cur + [rest[0]], rest[1..], sep);
        assert cur + [rest[0]] + rest[1..] == cur + rest;
      }
    }
  }

  /** Joining the tokens restores the string, for every separator length. */
  lemma SplitThenJoin(s: string, sep: string)
    requires sep != ""
    ensures Join(Split(s, sep), sep) == s
  {
    if s != "" {
      JoinTokens("", s, sep);
    }
  }

  lemma OccursInPrefix(sep: string, cur: string, rest: string, i: nat)
    requires OccursAt(sep, cur, i)
    ensures OccursAt(sep, cur + rest, i)
  {
    assert (cur + rest)[i..i + |sep|] == cur[i..i + |sep|];
  }

  lemma {:induction false} TokensAreFree(cur: string, rest: string, sep: string)
    requires sep != "" && forall i :: 0 <= i < |cur| ==> !OccursAt(sep, cur + rest, i)
    ensures forall k :: 0 <= k < |Tokens(cur, rest, sep)| ==> !Occurs(sep, Tokens(cur, rest, sep)[k])
    decreases |rest|
  {
    var all := cur + rest;
    if |rest| < |sep| {
    } else if rest[..|sep|] == sep {
      if Occurs(sep, cur) {
        var i :| OccursAt(sep, cur, i);
        OccursInPrefix(sep, cur, rest, i);
      }
      TokensAreFree("", rest[|sep|..], sep);
    } else {
      assert cur + [rest[0]] + rest[1..] == all;
      assert all[|cur|..|cur| + |sep|] == rest[..|sep|];
      TokensAreFree(cur + [rest[0]], rest[1..], sep);
    }
  }

  /** No token contains the separator. */
  lemma TokensWithoutSeparator(s: string, sep: string)
    requires sep != ""
    ensures forall k :: 0 <= k < |Split(s, sep)| ==> !Occurs(sep, Split(s, sep)[k])
  {
    TokensAreFree("", s, sep);
  }

  // ---- join, then split ------------------------------------------------------

  /** Behind t, the separator is not met before it begins. */
  ghost predicate EndsBefore(t: string, sep: string) {
    forall i :: 0 <= i < |t| ==> !OccursAt(sep, t + sep, i)
  }

  /** Each token ends where the separator behind it begins, and the last holds none. */
  ghost predicate Separable(ts: seq<string>, sep: string) {
    forall k :: 0 <= k < |ts| ==> if k < |ts| - 1 then EndsBefore(ts[k], sep) else !Occurs(sep, ts[k])
  }

  /** The first token ends no later than any occurrence of the separator. */
  lemma {:induction false} FirstToken(cur: string, rest: string, sep: string, i: nat)
    requires sep != "" && OccursAt(sep, rest, i)
    ensures |Tokens(cur, rest, sep)[0]| <= |cur| + i
    decreases |rest|
  {
    if rest[..|sep|] == sep {
    } else {
      assert i > 0;
      assert rest[1..][i - 1..i - 1 + |sep|] == rest[i..i + |sep|];
      FirstToken(cur + [rest[0]], rest[1..], sep, i - 1);
    }
  }

  lemma {:induction false} ScanToken(cur: string, t: string, sep: string, rest: string)
    requires sep != "" && EndsBefore(t, sep)
    ensures Tokens(cur, t + (sep + rest), sep) == [cur + t] + Tokens("", rest, sep)
    decreases |t|
  {
    var all := t + (sep + rest);
    if t == "" {
      assert all[..|sep|] == sep && all[|sep|..] == rest && cur + t == cur;
    } else {
      assert all == (t + sep) + rest;
      assert !OccursAt(sep, t + sep, 0) && all[..|sep|] == (t + sep)[0..|sep|];
      assert all[1..] == t[1..] + (sep + rest);
      forall i | 0 <= i < |t[1..]|
        ensures !OccursAt(sep, t[1..] + sep, i)
      {
        assert !OccursAt(sep, t + sep, i + 1);
        assert (t[1..] + sep)[i..i + |sep|] == (t + sep)[i + 1..i + 1 + |sep|];
      }
      ScanToken(cur + [t[0]], t[1..], sep, rest);
      assert cur + [t[0]] + t[1..] == cur + t;
    }
  }

  lemma {:induction false} ScanLastToken(cur: string, t: string, sep: string)
    requires sep != "" && !Occurs(sep, t)
    ensures Tokens(cur, t, sep) == [cur + t]
    decreases |t|
  {
    if |t| < |sep| {
    } else {
      assert !OccursAt(sep, t, 0);
      if Occurs(sep, t[1..]) {
        var i: nat :| OccursAt(sep, t[1..], i);
        assert t[1..][i..i + |sep|] == t[i + 1..i + 1 + |sep|];
        assert OccursAt(sep, t, i + 1);
        assert false;
      }
      ScanLastToken(cur + [t[0]], t[1..], sep);
      assert cur + [t[0]] + t[1..] == cur + t;
    }
  }

  lemma SeparableHead(ts: seq<string>, sep: string)
    requires |ts| > 1
    ensures Separable(ts, sep) <==> EndsBefore(ts[0], sep) && Separable(ts[1..], sep)
  {
    hide EndsBefore, Occurs;
    if EndsBefore(ts[0], sep) && Separable(ts[1..], sep) {
      forall k | 0 <= k < |ts|
        ensures if k < |ts| - 1 then EndsBefore(ts[k], sep) else !Occurs(sep, ts[k])
      {
        if k > 0 {
          assert ts[k] == ts[1..][k - 1];
        }
      }
    }
  }

  lemma {:induction false} TokensOfJoin(ts: seq<string>, sep: string)
    requires sep != "" && ts != []
    ensures Tokens("", Join(ts, sep), sep) == ts <==> Separable(ts, sep)
  {
    hide Separable, EndsBefore, Occurs;
    var t, all := ts[0], Join(ts, sep);
    assert "" + t == t;
    if |ts| == 1 {
      LastOfJoin(t, sep);
      assert ts == [t];
    } else {
      var rest := Join(ts[1..], sep);
      SeparableHead(ts, sep);
      if EndsBefore(t, sep) {
        ScanToken("", t, sep, rest);
        TokensOfJoin(ts[1..], sep);
        assert [t] + ts[1..] == ts;
        assert ([t] + Tokens("", rest, sep))[1..] == Tokens("", rest, sep);
      } else {
        EarlyCut(t, sep, rest);
      }
    }
  }

  lemma LastOfJoin(t: string, sep: string)
    requires sep != ""
    ensures Tokens("", t, sep) == [t] <==> Separable([t], sep)
  {
    assert Separable([t], sep) <==> !Occurs(sep, [t][0]);
    if Occurs(sep, t) {
      var i :| OccursAt(sep, t, i);
      FirstToken("", t, sep, i);
    } else {
      ScanLastToken("", t, sep);
      assert "" + t == t;
    }
  }

  lemma EarlyCut(t: string, sep: string, rest: string)
    requires sep != "" && !EndsBefore(t, sep)
    ensures Tokens("", t + (sep + rest), sep)[0] != t
  {
    var i :| 0 <= i < |t| && OccursAt(sep, t + sep, i);
    OccursInPrefix(sep, t + sep, rest, i);
    assert (t + sep) + rest == t + (sep + rest);
    FirstToken("", t + (sep + rest), sep, i);
  }

  lemma JoinIsEmpty(ts: seq<string>, sep: string)
    requires sep != ""
    ensures Join(ts, sep) == "" <==> ts == [] || ts == [""]
  {
    if |ts| > 1 {
      assert |Join(ts, sep)| >= 1;
    }
  }

  /** Tokens come back from their join exactly when they are separable, except the single empty token, which is lost. */
  lemma JoinThenSplit(ts: seq<string>, sep: string)
    requires sep != ""
    ensures Split(Join(ts, sep), sep) == ts <==> Separable(ts, sep) && ts != [""]
  {
    JoinIsEmpty(ts, sep);
    if ts != [] && ts != [""] {
      TokensOfJoin(ts, sep);
    }
  }

  ghost predicate Free(c: char, ts: seq<string>) {
    forall k :: 0 <= k < |ts| ==> c !in ts[k]
  }

  /** For a separator of one byte that means that no token holds the byte. */
  lemma OneByteSeparable(ts: seq<string>, c: char)
    ensures Separable(ts, [c]) <==> Free(c, ts)
  {
    forall k | 0 <= k < |ts|
      ensures EndsBefore(ts[k], [c]) <==> c !in ts[k]
      ensures Occurs([c], ts[k]) <==> c in ts[k]
    {
      OneByte(ts[k], c);
    }
  }

  lemma OneByte(t: string, c: char)
    ensures EndsBefore(t, [c]) <==> c !in t
    ensures Occurs([c], t) <==> c in t
  {
    forall i | 0 <= i < |t|
      ensures OccursAt([c], t, i) <==> t[i] == c
      ensures OccursAt([c], t + [c], i) <==> t[i] == c
    {
      assert t[i..i + 1] == [t[i]] && (t + [c])[i..i + 1] == [t[i]];
    }
  }

  lemma JoinThenSplitByte(ts: seq<string>, c: char)
    requires Free(c, ts)
    ensures Split(Join(ts, [c]), [c]) == ts <==> ts != [""]
  {
    OneByteSeparable(ts, c);
    JoinThenSplit(ts, [c]);
  }

  /** For a longer one it is not enough that no token contains it. */
  lemma StraddledSeparator()
    ensures !Occurs("--", "a-") && !Occurs("--", "b") && !Separable(["a-", "b"], "--")
  {
    forall i: nat
      ensures !OccursAt("--", "a-", i) && !OccursAt("--", "b", i)
    {
      assert i == 0 ==> "a-"[0..2][0] == 'a';
    }
    assert "a-" + "--" == "a---" && "a---"[1..3] == "--";
    assert OccursAt("--", "a-" + "--", 1);
    assert !EndsBefore("a-", "--");
    assert ["a-", "b"][0] == "a-";
  }

  // ---- the loops -------------------------------------------------------------

  /** The tokens still to come when a token began at start and the search stands at j. */
  ghost function ToCome(s: string, start: nat, j: nat, sep: string): seq<string>
    requires sep != "" && start <= j <= |s|
  {
    Tokens(s[start..j], s[j..], sep)
  }

  predicate Matches(s: string, j: nat, sep: string)
    requires sep != "" && j + |sep| <= |s|
  {
    (|sep| == 1 && s[j] == sep[0]) || s[j..j + |sep|] == sep
  }

  lemma ToComeStep(s: string, start: nat, j: nat, sep: string)
    requires sep != "" && start <= j && j + |sep| <= |s|
    ensures ToCome(s, start, j, sep) ==
            if Matches(s, j, sep) then [s[start..j]] + ToCome(s, j + |sep|, j + |sep|, sep)
            else ToCome(s, start, j + 1, sep)
  {
    var rest := s[j..];
    assert rest[..|sep|] == s[j..j + |sep|] && rest[|sep|..] == s[j + |sep|..];
    assert |sep| == 1 ==> s[j..j + 1] == [s[j]] && sep == [sep[0]];
    assert rest[1..] == s[j + 1..] && s[start..j] + [s[j]] == s[start..j + 1];
    assert s[j + |sep|..j + |sep|] == "";
  }

  lemma ToComeEnd(s: string, start: nat, j: nat, sep: string)
    requires sep != "" && start <= j <= |s| < j + |sep|
    ensures ToCome(s, start, j, sep) == [s[start..]]
  {
    assert s[start..j] + s[j..] == s[start..];
  }

  /** Room for the next token and the final one. */
  method Grow(tokens: array<string>, elements: nat) returns (more: array<string>)
    requires elements < tokens.Length
    ensures more == tokens || fresh(more)
    ensures elements + 2 <= more.Length && more[..elements] == tokens[..elements]
  {
    more := tokens;
    if tokens.Length < elements + 2 {
      more := new string[tokens.Length * 2];
      forall i | 0 <= i < elements {
        more[i] := tokens[i];
      }
    }
  }

  /** Stores a token behind the others. */
  method Store(tokens: array<string>, elements: nat, t: string)
    requires elements < tokens.Length
    modifies tokens
    ensures tokens[..elements + 1] == old(tokens[..elements]) + [t]
  {
    tokens[elements] := t;
  }

  /** sdssplitlen. No tokens come back for an empty separator. */
  method SplitLen(s: string, sep: string) returns (tokens: array?<string>, count: nat)
    ensures sep == "" ==> tokens == null
    ensures sep != "" ==> tokens != null && count <= tokens.Length && tokens[..count] == Split(s, sep)
    ensures tokens != null ==> fresh(tokens)
  {
    hide Tokens, ToCome, Matches;
    if |sep| < 1 {
      return null, 0;
    }
    var slots := new string[5];
    if |s| == 0 {
      return slots, 0;
    }
    var elements, start, j: nat := 0, 0, 0;
    WholeToCome(s, sep);
    while j < |s| - (|sep| - 1)
      invariant 0 <= start <= j <= |s|
      invariant fresh(slots) && 0 <= elements < slots.Length
      invariant slots[..elements] + ToCome(s, start, j, sep) == Split(s, sep)
    {
      slots := Grow(slots, elements);
      ghost var before := slots[..elements];
      ToComeStep(s, start, j, sep);
      if Matches(s, j, sep) {
        assert before + ([s[start..j]] + ToCome(s, j + |sep|, j + |sep|, sep))
            == (before + [s[start..j]]) + ToCome(s, j + |sep|, j + |sep|, sep);
        Store(slots, elements, s[start..j]);
        elements := elements + 1;
        start := j + |sep|;
        j := j + |sep| - 1;
      }
      j := j + 1;
    }
    ToComeEnd(s, start, j, sep);
    Store(slots, elements, s[start..]);
    return slots, elements + 1;
  }

  lemma WholeToCome(s: string, sep: string)
    requires s != "" && sep != ""
    ensures [] + ToCome(s, 0, 0, sep) == Split(s, sep)
  {
    assert s[0..0] == "" && s[0..] == s;
  }

  lemma {:induction false} JoinAppend(ts: seq<string>, t: string, sep: string)
    ensures Join(ts + [t], sep) == if ts == [] then t else Join(ts, sep) + (sep + t)
  {
    if |ts| == 0 {
      assert ts + [t] == [t];
    } else {
      assert (ts + [t])[1..] == ts[1..] + [t];
      JoinAppend(ts[1..], t, sep);
      if |ts| > 1 {
        assert ts[0] + (sep + (Join(ts[1..], sep) + (sep + t))) == (ts[0] + (sep + Join(ts[1..], sep))) + (sep + t);
      }
    }
  }

  lemma {:induction false} JoinPrefix(ts: seq<string>, j: nat, sep: string)
    requires j <= |ts|
    ensures |Join(ts[..j], sep)| + (if 0 < j < |ts| then |sep| else 0) <= |Join(ts, sep)|
    decreases |ts| - j
  {
    if j == |ts| {
      assert ts[..j] == ts;
    } else {
      JoinPrefix(ts, j + 1, sep);
      assert ts[..j + 1] == ts[..j] + [ts[j]];
      JoinAppend(ts[..j], ts[j], sep);
    }
  }

  lemma JoinNothing(sep: string)
    ensures Join([], sep) == ""
  {
  }

  /** sdsjoinsds. */
  method JoinSds(argv: seq<string>, sep: string) returns (join: Sds)
    requires |Join(argv, sep)| + MAX_PREALLOC < U64_SIZE
    ensures fresh(join) && join.Valid() && join.Content() == Join(argv, sep)
  {
    hide Join;
    join := new Sds("");
    JoinNothing(sep);
    for j := 0 to |argv|
      invariant fresh(join) && fresh(join.buf) && join.Valid()
      invariant join.Content() == Join(argv[..j], sep) + if 0 < j < |argv| then sep else ""
    {
      assert argv[..j + 1] == argv[..j] + [argv[j]];
      JoinAppend(argv[..j], argv[j], sep);
      JoinPrefix(argv, j + 1, sep);
      join.CatLen(argv[j]);
      assert join.Content() == Join(argv[..j + 1], sep);
      if j != |argv| - 1 {
        join.CatLen(sep);
      }
    }
    assert argv[..|argv|] == argv;
  }
}
