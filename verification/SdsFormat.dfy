/** sdscatfmt: a formatter that writes straight into a growing string. */
module SdsFormat {
  import opened Bits
  import opened SdsBuffer
  import opened SdsNumber

  datatype Arg = Text(text: string) | Number(number: int)

  /** A C string ends at its first zero byte. */
  function CString(s: string): string {
    if s == "" || s[0] == '\0' then "" else [s[0]] + CString(s[1..])
  }

  predicate TakesArg(c: char) {
    c == 's' || c == 'S' || c == 'i' || c == 'I' || c == 'u' || c == 'U'
  }

  /** The argument has the type the conversion reads. */
  predicate Suits(c: char, a: Arg) {
    match c
    case 's' => a.Text?
    case 'S' => a.Text?
    case 'i' => a.Number? && -0x8000_0000 <= a.number <= 0x7FFF_FFFF
    case 'I' => a.Number? && I64_MIN <= a.number <= I64_MAX
    case 'u' => a.Number? && 0 <= a.number < U32_SIZE
    case 'U' => a.Number? && 0 <= a.number < U64_SIZE
    case _ => false
  }

  /** The arguments match the conversions in order, and the format does not end in a lone '%'. */
  predicate Fits(fmt: string, args: seq<Arg>) {
    if fmt == "" then true
    else if fmt[0] != '%' then fmt[0] != '\0' && Fits(fmt[1..], args)
    else if |fmt| == 1 || fmt[1] == '\0' then false
    else if TakesArg(fmt[1]) then |args| > 0 && Suits(fmt[1], args[0]) && Fits(fmt[2..], args[1..])
    else Fits(fmt[2..], args)
  }

  /** What one conversion prints. */
  function Printed(c: char, a: Arg): string
    requires Suits(c, a)
  {
    match c
    case 's' => CString(a.text)
    case 'S' => a.text
    case _ => SignedDecimal(a.number)
  }

  /** The text the format stands for. */
  function Expand(fmt: string, args: seq<Arg>): string
    requires Fits(fmt, args)
  {
    if fmt == "" then ""
    else if fmt[0] != '%' then [fmt[0]] + Expand(fmt[1..], args)
    else if TakesArg(fmt[1]) then Printed(fmt[1], args[0]) + Expand(fmt[2..], args[1..])
    else [fmt[1]] + Expand(fmt[2..], args)
  }

  // ---- what the expansion is -------------------------------------------------

  /** How many arguments the format takes. */
  function Uses(fmt: string): nat {
    if |fmt| < 2 then 0
    else if fmt[0] != '%' then Uses(fmt[1..])
    else (if TakesArg(fmt[1]) then 1 else 0) + Uses(fmt[2..])
  }

  /** Text without a conversion stands for itself. */
  lemma {:induction false} TextExpands(fmt: string, args: seq<Arg>)
    requires '%' !in fmt && '\0' !in fmt
    ensures Fits(fmt, args) && Expand(fmt, args) == fmt && Uses(fmt) == 0
  {
    if fmt == "" {
    } else {
      TextExpands(fmt[1..], args);
      assert fmt == [fmt[0]] + fmt[1..];
    }
  }

  /** The first character or conversion, in front of any rest. */
  lemma FirstUnit(u: string, rest: string, args: seq<Arg>)
    requires (|u| == 1 && u[0] != '%' && u[0] != '\0') || (|u| == 2 && u[0] == '%' && u[1] != '\0' && !TakesArg(u[1]))
    ensures Fits(u + rest, args) <==> Fits(rest, args)
    ensures Fits(rest, args) ==> Expand(u + rest, args) == [u[|u| - 1]] + Expand(rest, args)
    ensures Uses(u + rest) == Uses(rest)
  {
    assert (u + rest)[|u|..] == rest;
  }

  lemma FirstConversion(c: char, rest: string, args: seq<Arg>)
    requires TakesArg(c)
    ensures Fits(['%', c] + rest, args) <==> |args| > 0 && Suits(c, args[0]) && Fits(rest, args[1..])
    ensures Fits(['%', c] + rest, args) ==>
      Expand(['%', c] + rest, args) == Printed(c, args[0]) + Expand(rest, args[1..])
    ensures Uses(['%', c] + rest) == 1 + Uses(rest)
  {
    hide Suits, Printed;
    assert (['%', c] + rest)[2..] == rest;
  }

  /** Formats behind one another expand behind one another, each with its own arguments. */
  lemma {:induction false} ExpandAppend(f: string, g: string, a: seq<Arg>, b: seq<Arg>)
    requires Fits(f, a) && |a| == Uses(f) && Fits(g, b)
    ensures Fits(f + g, a + b) && Expand(f + g, a + b) == Expand(f, a) + Expand(g, b)
    ensures Uses(f + g) == Uses(f) + Uses(g)
    decreases |f|
  {
    hide Fits, Expand, Uses, TakesArg, Suits, Printed;
    if f == "" {
      NoFormat(a);
      assert f + g == g && a + b == b;
    } else {
      var n := UnitLength(f, a);
      var u, rest := f[..n], f[n..];
      assert f == u + rest && f + g == u + (rest + g);
      if n == 2 && TakesArg(u[1]) {
        assert u == ['%', u[1]];
        FirstConversion(u[1], rest, a);
        assert (a + b)[1..] == a[1..] + b;
        FirstConversion(u[1], rest + g, a + b);
        ExpandAppend(rest, g, a[1..], b);
      } else {
        FirstUnit(u, rest, a);
        FirstUnit(u, rest + g, a + b);
        ExpandAppend(rest, g, a, b);
      }
    }
  }

  lemma NoFormat(a: seq<Arg>)
    ensures Fits("", a) && Expand("", a) == "" && Uses("") == 0
  {
  }

  /** How long the first character or conversion is. */
  lemma UnitLength(f: string, a: seq<Arg>) returns (n: nat)
    requires f != "" && Fits(f, a)
    ensures 0 < n <= |f|
    ensures if n == 2 then f[0] == '%' && f[1] != '\0' else n == 1 && f[0] != '%' && f[0] != '\0'
  {
    n := if f[0] == '%' then 2 else 1;
  }

  /** One conversion alone. */
  lemma OneConversion(c: char, a: Arg)
    requires TakesArg(c) && Suits(c, a)
    ensures Fits(['%', c], [a]) && Expand(['%', c], [a]) == Printed(c, a) && Uses(['%', c]) == 1
  {
    assert ['%', c][2..] == "" && [a][1..] == [];
  }

  lemma {:induction false} CStringEnds(t: string, u: string)
    requires '\0' !in t
    ensures CString(t + ['\0'] + u) == t && CString(t) == t
  {
    if t == "" {
    } else {
      CStringEnds(t[1..], u);
      assert (t + ['\0'] + u)[1..] == t[1..] + ['\0'] + u;
    }
  }

  /** "%s" prints a text up to its first zero byte, and "%S" prints any text. */
  lemma TextConversions(t: string, u: string)
    ensures '\0' !in t ==> Fits("%s", [Text(t)]) && Expand("%s", [Text(t)]) == t
    ensures '\0' !in t ==> var z := Text(t + ['\0'] + u); Fits("%s", [z]) && Expand("%s", [z]) == t
    ensures Fits("%S", [Text(t)]) && Expand("%S", [Text(t)]) == t && Uses("%s") == Uses("%S") == 1
  {
    OneConversion('s', Text(t));
    OneConversion('s', Text(t + ['\0'] + u));
    OneConversion('S', Text(t));
    if '\0' !in t {
      CStringEnds(t, u);
    }
  }

  /** The number conversions print decimal forms that read back to the number, over the whole range of their type. */
  lemma NumberConversions(c: char, n: int)
    requires c in "iIuU"
    requires c == 'i' ==> -0x8000_0000 <= n < 0x8000_0000
    requires c == 'I' ==> -0x8000_0000_0000_0000 <= n < 0x8000_0000_0000_0000
    requires c == 'u' ==> 0 <= n < 0x1_0000_0000
    requires c == 'U' ==> 0 <= n < 0x1_0000_0000_0000_0000
    ensures Fits(['%', c], [Number(n)]) && Uses(['%', c]) == 1
    ensures var t := Expand(['%', c], [Number(n)]);
      && ReadSigned(t) == n && |t| > 0 && (t[0] == '-' <==> n < 0)
      && forall i :: (if n < 0 then 1 else 0) <= i < |t| ==> '0' <= t[i] <= '9'
  {
    OneConversion(c, Number(n));
    SignedReadsBack(n);
    DecimalDigits(if n < 0 then -n else n);
  }

  /** '%' in front of any other character prints that character, so "%%" prints '%'. */
  lemma OtherConversions(c: char)
    requires c !in "sSiIuU" && c != '\0'
    ensures Fits(['%', c], []) && Expand(['%', c], []) == [c] && Uses(['%', c]) == 0
  {
    var all := "sSiIuU";
    assert all[0] == 's' && all[1] == 'S' && all[2] == 'i' && all[3] == 'I' && all[4] == 'u' && all[5] == 'U';
    assert ['%', c][2..] == "";
  }

  // ---- the loop --------------------------------------------------------------

  /** strlen and the bytes it spans. */
  method StrLen(s: string) returns (l: nat)
    ensures l <= |s| && s[..l] == CString(s)
  {
    l := 0;
    while l < |s| && s[l] != '\0'
      invariant l <= |s| && CString(s) == s[..l] + CString(s[l..])
    {
      assert s[l..][1..] == s[l + 1..] && s[..l + 1] == s[..l] + [s[l]];
      l := l + 1;
    }
  }

  /** The bytes a conversion has to copy. */
  method Print(c: char, a: Arg) returns (t: string)
    requires Suits(c, a)
    ensures t == Printed(c, a)
  {
    if c == 's' {
      var l := StrLen(a.text);
      t := a.text[..l];
    } else if c == 'S' {
      t := a.text;
    } else {
      var digits := new char[LLSTR_SIZE];
      var l;
      if c == 'i' || c == 'I' {
        l := Ll2Str(digits, a.number);
      } else {
        l := Ull2Str(digits, a.number);
      }
      t := digits[..l];
    }
  }

  /** Room, then the bytes. */
  method Emit(s: Sds, t: string)
    requires s.Sound() && s.len + |t| + MAX_PREALLOC < U64_SIZE
    modifies s, s.buf
    ensures s.Sound() && s.Content() == old(s.Content()) + t
    ensures s.buf == old(s.buf) || fresh(s.buf)
  {
    if s.Avail() < |t| {
      s.MakeRoomFor(|t|);
    }
    s.Extend(t);
  }

  lemma ExpandStep(fmt: string, args: seq<Arg>, j: nat, k: nat, out: string)
    requires j < |fmt| && k <= |args| && Fits(fmt[j..], args[k..])
    ensures var rest := Expand(fmt[j..], args[k..]);
            if fmt[j] != '%' then
              Fits(fmt[j + 1..], args[k..]) && out + rest == (out + [fmt[j]]) + Expand(fmt[j + 1..], args[k..])
            else
              && j + 1 < |fmt|
              && if TakesArg(fmt[j + 1]) then
                && k < |args| && Suits(fmt[j + 1], args[k]) && Fits(fmt[j + 2..], args[k + 1..])
                && out + rest == (out + Printed(fmt[j + 1], args[k])) + Expand(fmt[j + 2..], args[k + 1..])
              else
                Fits(fmt[j + 2..], args[k..]) && out + rest == (out + [fmt[j + 1]]) + Expand(fmt[j + 2..], args[k..])
  {
    assert fmt[j..][1..] == fmt[j + 1..];
    if fmt[j] == '%' {
      assert fmt[j..][2..] == fmt[j + 2..];
      if TakesArg(fmt[j + 1]) {
        assert args[k..][1..] == args[k + 1..];
      }
    }
  }

  lemma ExpandAll(fmt: string, args: seq<Arg>, f: nat, k: nat)
    requires Fits(fmt, args) && f <= |fmt| && k <= |args|
    ensures fmt[0..] == fmt && args[0..] == args
    ensures f == |fmt| ==> Fits(fmt[f..], args[k..]) && Expand(fmt[f..], args[k..]) == ""
  {
  }

  /** One turn of the loop: one byte of the format, or one conversion. */
  method FormatStep(s: Sds, fmt: string, args: seq<Arg>, f: nat, k: nat, i: nat, ghost goal: string)
    returns (f': nat, k': nat, i': nat)
    requires f < |fmt| && k <= |args| && Fits(fmt[f..], args[k..])
    requires s.Sound() && i == s.len && s.Content() + Expand(fmt[f..], args[k..]) == goal
    requires |goal| + 1 + MAX_PREALLOC < U64_SIZE
    modifies s, s.buf
    ensures f < f' <= |fmt| && k' <= |args| && Fits(fmt[f'..], args[k'..])
    ensures s.Sound() && i' == s.len && s.Content() + Expand(fmt[f'..], args[k'..]) == goal
    ensures s.buf == old(s.buf) || fresh(s.buf)
  {
    hide Expand, Fits, Suits, Printed;
    ExpandStep(fmt, args, f, k, s.Content());
    if s.Avail() == 0 {
      s.MakeRoomFor(1);
    }
    f', k' := f, k;
    if fmt[f] == '%' {
      var next := fmt[f + 1];
      f' := f' + 1;
      if TakesArg(next) {
        var t := Print(next, args[k]);
        k' := k' + 1;
        Emit(s, t);
        i' := i + |t|;
      } else {
        s.Extend([next]);
        i' := i + 1;
      }
    } else {
      s.Extend([fmt[f]]);
      i' := i + 1;
    }
    f' := f' + 1;
  }

  /** sdscatfmt: s grows by the expansion of the format. */
  method CatFmt(s: Sds, fmt: string, args: seq<Arg>)
    requires s.Valid() && Fits(fmt, args)
    requires 2 * s.len + 2 * |fmt| + |Expand(fmt, args)| + 1 + MAX_PREALLOC < U64_SIZE
    modifies s, s.buf
    ensures s.Valid() && s.Content() == old(s.Content()) + Expand(fmt, args)
    ensures s.buf == old(s.buf) || fresh(s.buf)
  {
    hide Expand, Fits;
    ghost var goal := s.Content() + Expand(fmt, args);
    s.MakeRoomFor(s.len + |fmt| * 2);
    var f: nat, k: nat, i: nat := 0, 0, s.len;
    ExpandAll(fmt, args, 0, 0);
    while f < |fmt|
      invariant f <= |fmt| && k <= |args| && Fits(fmt[f..], args[k..])
      invariant s.Sound() && i == s.len && (s.buf == old(s.buf) || fresh(s.buf))
      invariant s.Content() + Expand(fmt[f..], args[k..]) == goal
    {
      f, k, i := FormatStep(s, fmt, args, f, k, i, goal);
    }
    ExpandAll(fmt, args, f, k);
    s.buf[i] := '\0';
    assert s.Content() == goal;
  }
}
