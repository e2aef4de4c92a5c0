/**
  The language sdssplitargs reads, as a grammar: a line has these arguments exactly when it
  is a writing of them, and is refused exactly when it is a writing of none.
 */
module SdsArgs {
  import opened Optional
  import opened SdsQuote

  /** Inside double quotes: a byte as it is, a letter behind a backslash, or two hexadecimal digits. */
  datatype Piece = Raw(c: char) | Escaped(c: char) | Hex(h: char, l: char, high: nat, low: nat)

  /** What an argument ends with. */
  datatype Tail = Unquoted | Double(pieces: seq<Piece>) | Single(text: string)

  /** Bytes outside quotes, and then perhaps one quoted part. */
  datatype Word = Word(bare: string, tail: Tail)

  predicate Separator(c: char) {
    c == ' ' || c == '\t' || c == '\n' || c == '\r'
  }

  /** Separators, vertical tab and form feed. */
  predicate Space(c: char) {
    Separator(c) || c == '\U{000B}' || c == '\U{000C}'
  }

  /** c is the hexadecimal digit d, in either case. */
  predicate DigitIs(c: char, d: nat) {
    d < 16 && if d < 10 then c as int == '0' as int + d
              else c as int == 'a' as int + d - 10 || c as int == 'A' as int + d - 10
  }

  ghost predicate TwoDigits(t: string) {
    |t| >= 2 && (exists d :: DigitIs(t[0], d)) && exists d :: DigitIs(t[1], d)
  }

  /** The control characters of C, and every other byte for itself. */
  function Meaning(c: char): char {
    if c == 'n' then '\n' else if c == 'r' then '\r' else if c == 't' then '\t'
    else if c == 'b' then '\U{0008}' else if c == 'a' then '\U{0007}' else c
  }

  // ---- double quotes ---------------------------------------------------------

  function PieceText(p: Piece): string {
    match p
    case Raw(c) => [c]
    case Escaped(c) => ['\\', c]
    case Hex(h, l, _, _) => ['\\', 'x', h, l]
  }

  function PieceValue(p: Piece): char
    requires p.Hex? ==> p.high < 16 && p.low < 16
  {
    match p
    case Raw(c) => c
    case Escaped(c) => Meaning(c)
    case Hex(_, _, high, low) => (16 * high + low) as char
  }

  function PiecesText(ps: seq<Piece>): string {
    if ps == [] then "" else PieceText(ps[0]) + PiecesText(ps[1..])
  }

  /** No quote and no backslash stands alone, and no digits follow a mere letter x. */
  ghost predicate PieceOk(p: Piece, text: string) {
    match p
    case Raw(c) => c != '"' && c != '\\'
    case Escaped(c) => c == 'x' ==> !TwoDigits(text)
    case Hex(h, l, high, low) => high < 16 && low < 16 && DigitIs(h, high) && DigitIs(l, low)
  }

  ghost predicate PiecesOk(ps: seq<Piece>) {
    ps == [] || (PiecesOk(ps[1..]) && PieceOk(ps[0], PiecesText(ps[1..])))
  }

  ghost function PiecesValue(ps: seq<Piece>): string
    requires PiecesOk(ps)
  {
    if ps == [] then "" else [PieceValue(ps[0])] + PiecesValue(ps[1..])
  }

  lemma DigitsAgree(c: char)
    ensures IsHexDigit(c) <==> exists d :: DigitIs(c, d)
    ensures IsHexDigit(c) ==> DigitIs(c, HexValue(c))
    ensures forall d :: DigitIs(c, d) ==> d == HexValue(c)
  {
    assert IsHexDigit(c) ==> DigitIs(c, HexValue(c));
  }

  lemma SpacesAgree(c: char)
    ensures IsSpace(c) <==> Space(c)
  {
  }

  /** The last bytes of a double-quoted part, its quote included. */
  function Closed(text: string, quote: char, after: string): string {
    text + ([quote] + after)
  }

  lemma Behind(first: char, text: string, quote: char, after: string)
    ensures [first] + Closed(text, quote, "") + after == [first] + Closed(text, quote, after)
  {
  }

  /** Digits are looked for no further than the closing quote. */
  lemma DigitsAhead(text: string, after: string)
    ensures TwoDigits(Closed(text, '"', after)) <==> TwoDigits(text)
  {
    var r := Closed(text, '"', after);
    DigitsAgree('"');
    if |text| == 0 {
      assert r[0] == '"';
    } else if |text| == 1 {
      assert r[1] == '"';
    } else {
      assert r[0] == text[0] && r[1] == text[1];
    }
  }

  lemma ScanPiece(p: Piece, text: string, after: string, cur: string)
    requires PieceOk(p, text)
    ensures ScanArg(PieceText(p) + Closed(text, '"', after), InQuotes, cur)
         == ScanArg(Closed(text, '"', after), InQuotes, cur + [PieceValue(p)])
  {
    hide DigitIs, IsHexDigit, HexValue;
    var rest := Closed(text, '"', after);
    var r := PieceText(p) + rest;
    match p
    case Raw(c) => assert r[1..] == rest;
    case Escaped(c) =>
      assert r[2..] == rest;
      DigitsAhead(text, after);
      if c == 'x' && |r| >= 4 {
        DigitsAgree(r[2]);
        DigitsAgree(r[3]);
        assert r[2] == rest[0] && r[3] == rest[1];
      }
    case Hex(h, l, high, low) =>
      assert r[4..] == rest;
      DigitsAgree(h);
      DigitsAgree(l);
  }

  lemma ScanClose(mode: Mode, quote: char, after: string, cur: string)
    requires !mode.Plain? && quote == (if mode.InQuotes? then '"' else '\'') && (after == "" || Space(after[0]))
    ensures ScanArg(Closed("", quote, after), mode, cur) == Some((cur, after))
  {
    var r := Closed("", quote, after);
    assert r == [quote] + after && r[1..] == after;
    SpacesAgree(if after == "" then ' ' else after[0]);
  }

  lemma {:induction false} ScanPieces(ps: seq<Piece>, after: string, cur: string)
    requires PiecesOk(ps) && (after == "" || Space(after[0]))
    ensures ScanArg(Closed(PiecesText(ps), '"', after), InQuotes, cur) == Some((cur + PiecesValue(ps), after))
    decreases |ps|
  {
    hide ScanArg, TwoDigits, DigitIs;
    if ps == [] {
      ScanClose(InQuotes, '"', after, cur);
      assert cur + "" == cur;
    } else {
      var text := PiecesText(ps[1..]);
      assert Closed(PiecesText(ps), '"', after) == PieceText(ps[0]) + Closed(text, '"', after);
      ScanPiece(ps[0], text, after, cur);
      ScanPieces(ps[1..], after, cur + [PieceValue(ps[0])]);
      assert cur + [PieceValue(ps[0])] + PiecesValue(ps[1..]) == cur + PiecesValue(ps);
    }
  }

  /** The scanner is at the closing quote. */
  predicate AtClosing(r: string, mode: Mode, quote: char, cur: string)
    requires ScanArg(r, mode, cur).Some? && !mode.Plain? && quote == if mode.InQuotes? then '"' else '\''
    ensures r != ""
    ensures AtClosing(r, mode, quote, cur) ==>
      r[0] == quote && ScanArg(r, mode, cur) == Some((cur, r[1..])) && (r[1..] == "" || Space(r[1..][0]))
    ensures !AtClosing(r, mode, quote, cur) ==> r[0] != quote
  {
    SpacesAgree(if |r| < 2 then ' ' else r[1]);
    r[0] == quote
  }

  /** Whatever the scanner reads up to a closing quote was written as pieces. */
  lemma {:induction false} ReadPieces(r: string, cur: string) returns (ps: seq<Piece>, after: string)
    requires ScanArg(r, InQuotes, cur).Some?
    ensures PiecesOk(ps) && r == Closed(PiecesText(ps), '"', after) && (after == "" || Space(after[0]))
    ensures ScanArg(r, InQuotes, cur) == Some((cur + PiecesValue(ps), after))
    decreases |r|
  {
    hide ScanArg, TwoDigits, DigitIs;
    if AtClosing(r, InQuotes, '"', cur) {
      ps, after := [], r[1..];
      assert r == Closed("", '"', after) && cur + "" == cur;
    } else {
      var p, rest := ReadPiece(r, cur);
      ps, after := ReadPieces(rest, cur + [PieceValue(p)]);
      assert r == PieceText(p) + Closed(PiecesText(ps), '"', after);
      DigitsAhead(PiecesText(ps), after);
      ps := [p] + ps;
      assert r == Closed(PiecesText(ps), '"', after);
      assert cur + [PieceValue(p)] + PiecesValue(ps[1..]) == cur + PiecesValue(ps);
    }
  }

  /** One piece. */
  lemma ReadPiece(r: string, cur: string) returns (p: Piece, rest: string)
    requires ScanArg(r, InQuotes, cur).Some? && r[0] != '"'
    ensures r == PieceText(p) + rest && |rest| < |r| && PieceOk(p, rest)
    ensures ScanArg(r, InQuotes, cur) == ScanArg(rest, InQuotes, cur + [PieceValue(p)])
  {
    if |r| >= 4 && r[0] == '\\' && r[1] == 'x' && IsHexDigit(r[2]) && IsHexDigit(r[3]) {
      DigitsAgree(r[2]);
      DigitsAgree(r[3]);
      p, rest := Hex(r[2], r[3], HexValue(r[2]), HexValue(r[3])), r[4..];
    } else if |r| >= 2 && r[0] == '\\' {
      p, rest := Escaped(r[1]), r[2..];
      if |r| >= 4 {
        DigitsAgree(r[2]);
        DigitsAgree(r[3]);
        assert rest[0] == r[2] && rest[1] == r[3];
      }
    } else {
      p, rest := Raw(r[0]), r[1..];
      assert r[0] == '\\' ==> rest == "";
    }
  }

  // ---- single quotes ---------------------------------------------------------

  /** Only the single quote is escaped. */
  function SingleText(s: string): string {
    if s == "" then "" else (if s[0] == '\'' then "\\'" else [s[0]]) + SingleText(s[1..])
  }

  /** A backslash at the end would take the closing quote with it. */
  predicate SingleOk(s: string) {
    s == "" || s[|s| - 1] != '\\'
  }

  lemma {:induction false} ScanSingle(s: string, after: string, cur: string)
    requires SingleOk(s) && (after == "" || Space(after[0]))
    ensures ScanArg(Closed(SingleText(s), '\'', after), InSingleQuotes, cur) == Some((cur + s, after))
    decreases |s|
  {
    var r := Closed(SingleText(s), '\'', after);
    if s == "" {
      ScanClose(InSingleQuotes, '\'', after, cur);
      assert cur + s == cur;
    } else {
      var rest := Closed(SingleText(s[1..]), '\'', after);
      ScanSingle(s[1..], after, cur + [s[0]]);
      assert cur + [s[0]] + s[1..] == cur + s;
      if s[0] == '\'' {
        assert r == "\\'" + rest && r[2..] == rest;
      } else {
        assert r == [s[0]] + rest && r[1..] == rest;
        assert s[0] == '\\' ==> |s| > 1 && rest[0] == SingleText(s[1..])[0] != '\'';
      }
    }
  }

  lemma ReadSingleByte(r: string, cur: string) returns (c: char, text: string, rest: string)
    requires ScanArg(r, InSingleQuotes, cur).Some? && r[0] != '\''
    ensures r == text + rest && |rest| < |r| && text == if c == '\'' then "\\'" else [c]
    ensures c == '\\' && rest != "" ==> rest[0] != '\''
    ensures ScanArg(r, InSingleQuotes, cur) == ScanArg(rest, InSingleQuotes, cur + [c])
  {
    if |r| >= 2 && r[0] == '\\' && r[1] == '\'' {
      c, text, rest := '\'', "\\'", r[2..];
    } else {
      c, text, rest := r[0], [r[0]], r[1..];
    }
  }

  lemma {:induction false} ReadSingle(r: string, cur: string) returns (s: string, after: string)
    requires ScanArg(r, InSingleQuotes, cur).Some?
    ensures SingleOk(s) && r == Closed(SingleText(s), '\'', after) && (after == "" || Space(after[0]))
    ensures ScanArg(r, InSingleQuotes, cur) == Some((cur + s, after))
    decreases |r|
  {
    hide ScanArg;
    if AtClosing(r, InSingleQuotes, '\'', cur) {
      s, after := "", r[1..];
      assert r == Closed("", '\'', after) && cur + s == cur;
    } else {
      var c, text, rest := ReadSingleByte(r, cur);
      s, after := ReadSingle(rest, cur + [c]);
      assert cur + [c] + s == cur + ([c] + s);
      if s == "" {
        assert rest[0] == '\'';
      }
      assert r == text + Closed(SingleText(s), '\'', after);
      s := [c] + s;
      assert SingleText(s) == text + SingleText(s[1..]);
      assert r == Closed(SingleText(s), '\'', after);
    }
  }

  // ---- words -----------------------------------------------------------------

  predicate BareOk(b: string) {
    forall i :: 0 <= i < |b| ==> !Separator(b[i]) && b[i] != '"' && b[i] != '\''
  }

  function TailText(t: Tail): string {
    match t
    case Unquoted => ""
    case Double(ps) => ['"'] + Closed(PiecesText(ps), '"', "")
    case Single(s) => ['\''] + Closed(SingleText(s), '\'', "")
  }

  function WordText(w: Word): string {
    w.bare + TailText(w.tail)
  }

  /** A word is not empty, does not start with a space, and its parts are well written. */
  ghost predicate WordOk(w: Word) {
    && BareOk(w.bare) && (w.bare != "" ==> !Space(w.bare[0])) && (w.tail.Unquoted? ==> w.bare != "")
    && (w.tail.Double? ==> PiecesOk(w.tail.pieces)) && (w.tail.Single? ==> SingleOk(w.tail.text))
  }

  ghost function WordValue(w: Word): string
    requires WordOk(w)
  {
    w.bare + match w.tail
             case Unquoted => ""
             case Double(ps) => PiecesValue(ps)
             case Single(s) => s
  }

  /** What may come behind a word: nothing, or a space that ends it. */
  predicate Follows(w: Word, after: string) {
    after == "" || if w.tail.Unquoted? then Separator(after[0]) else Space(after[0])
  }

  /** What the scanner leaves behind a word: a separator that ended it is gone. */
  function Left(w: Word, after: string): string {
    if w.tail.Unquoted? && after != "" then after[1..] else after
  }

  lemma {:induction false} ScanBare(b: string, r: string, cur: string)
    requires BareOk(b)
    ensures ScanArg(b + r, Plain, cur) == ScanArg(r, Plain, cur + b)
    decreases |b|
  {
    if b == "" {
      assert b + r == r && cur + b == cur;
    } else {
      assert (b + r)[1..] == b[1..] + r;
      ScanBare(b[1..], r, cur + [b[0]]);
      assert cur + [b[0]] + b[1..] == cur + b;
    }
  }

  lemma ScanTail(w: Word, after: string)
    requires WordOk(w) && Follows(w, after)
    ensures ScanArg(TailText(w.tail) + after, Plain, w.bare) == Some((WordValue(w), Left(w, after)))
  {
    hide PiecesOk, SingleOk, PiecesText, SingleText;
    var r := TailText(w.tail) + after;
    match w.tail
    case Unquoted => assert r == after && w.bare + "" == w.bare;
    case Double(ps) =>
      assert r[1..] == Closed(PiecesText(ps), '"', after);
      ScanPieces(ps, after, w.bare);
    case Single(s) =>
      assert r[1..] == Closed(SingleText(s), '\'', after);
      ScanSingle(s, after, w.bare);
  }

  lemma ScanWord(w: Word, after: string)
    requires WordOk(w) && Follows(w, after)
    ensures ScanArg(WordText(w) + after, Plain, "") == Some((WordValue(w), Left(w, after)))
    ensures WordText(w) != "" && !Space(WordText(w)[0])
  {
    hide PiecesOk, SingleOk, PiecesText, SingleText, ScanArg;
    ScanBare(w.bare, TailText(w.tail) + after, "");
    assert WordText(w) + after == w.bare + (TailText(w.tail) + after) && "" + w.bare == w.bare;
    ScanTail(w, after);
  }

  /** One turn of the scanner outside quotes. */
  lemma PlainByte(r: string, cur: string)
    ensures ScanArg(r, Plain, cur) ==
      if r == "" then Some((cur, ""))
      else if Separator(r[0]) then Some((cur, r[1..]))
      else if r[0] == '"' then ScanArg(r[1..], InQuotes, cur)
      else if r[0] == '\'' then ScanArg(r[1..], InSingleQuotes, cur)
      else ScanArg(r[1..], Plain, cur + [r[0]])
  {
  }

  /** The end of a word that the scanner reads. */
  lemma ReadTail(r: string, cur: string) returns (w: Word, after: string)
    requires ScanArg(r, Plain, cur).Some? && BareOk(cur) && (cur != "" ==> !Space(cur[0]))
    requires if r == "" || Separator(r[0]) then cur != "" else r[0] == '"' || r[0] == '\''
    ensures WordOk(w) && Follows(w, after) && w.bare == cur && TailText(w.tail) + after == r
    ensures ScanArg(r, Plain, cur) == Some((WordValue(w), Left(w, after)))
  {
    hide PiecesOk, SingleOk, PiecesText, SingleText, PiecesValue, ScanArg, BareOk, Closed;
    PlainByte(r, cur);
    if r == "" || Separator(r[0]) {
      w, after := Word(cur, Unquoted), r;
      assert cur + "" == cur;
    } else if r[0] == '"' {
      var ps;
      ps, after := ReadPieces(r[1..], cur);
      w := Word(cur, Double(ps));
      Behind('"', PiecesText(ps), '"', after);
    } else {
      var s;
      s, after := ReadSingle(r[1..], cur);
      w := Word(cur, Single(s));
      Behind('\'', SingleText(s), '\'', after);
    }
  }

  /** Whatever the scanner reads as an argument was written as a word. */
  lemma {:induction false} ReadWord(r: string, cur: string) returns (w: Word, after: string)
    requires ScanArg(r, Plain, cur).Some? && BareOk(cur) && (cur != "" ==> !Space(cur[0]))
    requires cur == "" ==> r != "" && !Space(r[0])
    ensures WordOk(w) && Follows(w, after) && WordText(w) + after == cur + r
    ensures ScanArg(r, Plain, cur) == Some((WordValue(w), Left(w, after)))
    decreases |r|
  {
    hide WordOk, WordValue, TailText, Follows, ScanArg;
    PlainByte(r, cur);
    if r == "" || Separator(r[0]) || r[0] == '"' || r[0] == '\'' {
      w, after := ReadTail(r, cur);
      assert WordText(w) + after == cur + (TailText(w.tail) + after);
    } else {
      w, after := ReadWord(r[1..], cur + [r[0]]);
      assert cur + [r[0]] + r[1..] == cur + r;
    }
  }

  // ---- lines -----------------------------------------------------------------

  predicate AllSpace(g: string) {
    forall i :: 0 <= i < |g| ==> Space(g[i])
  }

  /** Words with a gap before each and one behind the last. */
  function LineText(gaps: seq<string>, ws: seq<Word>): string
    requires |gaps| == |ws| + 1
  {
    if ws == [] then gaps[0] else gaps[0] + (WordText(ws[0]) + LineText(gaps[1..], ws[1..]))
  }

  /** Gaps are blank, and each word ends where the gap behind it begins. */
  ghost predicate LineOk(gaps: seq<string>, ws: seq<Word>)
    requires |gaps| == |ws| + 1
  {
    AllSpace(gaps[0]) &&
    (ws == [] || (WordOk(ws[0]) && Follows(ws[0], LineText(gaps[1..], ws[1..])) && LineOk(gaps[1..], ws[1..])))
  }

  ghost function LineValues(gaps: seq<string>, ws: seq<Word>): seq<string>
    requires |gaps| == |ws| + 1 && LineOk(gaps, ws)
  {
    if ws == [] then [] else [WordValue(ws[0])] + LineValues(gaps[1..], ws[1..])
  }

  lemma {:induction false} SkipGap(g: string, rest: string)
    requires AllSpace(g)
    ensures Args(g + rest) == Args(rest)
  {
    if g == "" {
      assert g + rest == rest;
    } else {
      SpacesAgree(g[0]);
      assert (g + rest)[1..] == g[1..] + rest;
      SkipGap(g[1..], rest);
    }
  }

  lemma ArgsOfWord(w: Word, after: string)
    requires WordOk(w) && Follows(w, after)
    ensures Args(WordText(w) + after) ==
            match Args(after) case None => None case Some(ts) => Some([WordValue(w)] + ts)
  {
    hide WordOk, ScanArg;
    ScanWord(w, after);
    SpacesAgree(WordText(w)[0]);
    if w.tail.Unquoted? && after != "" {
      SkipGap([after[0]], after[1..]);
      assert [after[0]] + after[1..] == after;
    }
  }

  lemma {:induction false} ArgsOfLine(gaps: seq<string>, ws: seq<Word>)
    requires |gaps| == |ws| + 1 && LineOk(gaps, ws)
    ensures Args(LineText(gaps, ws)) == Some(LineValues(gaps, ws))
    decreases |ws|
  {
    hide WordOk, WordText, WordValue, Follows;
    if ws == [] {
      SkipGap(gaps[0], "");
      assert gaps[0] + "" == gaps[0];
    } else {
      var rest := LineText(gaps[1..], ws[1..]);
      SkipGap(gaps[0], WordText(ws[0]) + rest);
      ArgsOfWord(ws[0], rest);
      ArgsOfLine(gaps[1..], ws[1..]);
    }
  }

  lemma {:induction false} ReadLine(r: string) returns (gaps: seq<string>, ws: seq<Word>)
    requires Args(r).Some?
    ensures |gaps| == |ws| + 1 && LineOk(gaps, ws) && LineText(gaps, ws) == r
    decreases |r|
  {
    hide WordOk, WordText, WordValue, Follows, ScanArg;
    if r == "" {
      gaps, ws := [""], [];
    } else if IsSpace(r[0]) {
      SpacesAgree(r[0]);
      gaps, ws := ReadLine(r[1..]);
      gaps := WidenGap(r[0], gaps, ws);
      assert [r[0]] + r[1..] == r;
    } else {
      SpacesAgree(r[0]);
      var w, after := ReadWord(r, "");
      assert "" + r == r;
      ScanWord(w, after);
      ArgsOfWord(w, after);
      gaps, ws := ReadLine(after);
      gaps, ws := [""] + gaps, [w] + ws;
      assert gaps[1..] == gaps[1..] && LineText(gaps, ws) == "" + (WordText(w) + after);
    }
  }

  lemma WidenGap(c: char, gaps: seq<string>, ws: seq<Word>) returns (wider: seq<string>)
    requires Space(c) && |gaps| == |ws| + 1 && LineOk(gaps, ws)
    ensures |wider| == |gaps| && LineOk(wider, ws) && LineText(wider, ws) == [c] + LineText(gaps, ws)
  {
    wider := [[c] + gaps[0]] + gaps[1..];
    assert wider[1..] == gaps[1..];
  }

  /** The line is a writing of these arguments. */
  ghost predicate Writes(gaps: seq<string>, ws: seq<Word>, line: string, ts: seq<string>) {
    |gaps| == |ws| + 1 && LineOk(gaps, ws) && LineText(gaps, ws) == line && LineValues(gaps, ws) == ts
  }

  /** A line has exactly the arguments it is a writing of, and no arguments if it is a writing of none. */
  lemma SplitArgsExact(line: string, ts: seq<string>)
    ensures Args(line) == Some(ts) <==> exists gaps, ws :: Writes(gaps, ws, line, ts)
  {
    if Args(line).Some? {
      var gaps, ws := ReadLine(line);
      ArgsOfLine(gaps, ws);
      assert Writes(gaps, ws, line, LineValues(gaps, ws));
    }
    forall gaps, ws | Writes(gaps, ws, line, ts)
      ensures Args(line) == Some(ts)
    {
      ArgsOfLine(gaps, ws);
    }
  }
}
