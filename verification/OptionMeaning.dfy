/**
 What every form of option means to ParseCommandLine, whatever surrounds it: which
 names are recognised, how numbers are read, and what is stored of a text that is
 too long for its buffer (MiniDump/MiniDump.cpp, lines 199-277).
 */
module OptionMeaning {
  import opened Common
  import opened Digits
  import opened CommandLine
  import opened CrashLine

  // ----- names -----

  /** The letters agree up to case. */
  predicate Alike(c: char, w: char) { c == w || ('A' <= c <= 'Z' && c as int + 32 == w as int) }

  predicate Begins(s: string, w: string) { |w| <= |s| && forall i :: 0 <= i < |w| ==> Alike(s[i], w[i]) }

  predicate LowerCase(w: string) { forall i :: 0 <= i < |w| ==> 'a' <= w[i] <= 'z' || w[i] == ':' }

  lemma BeginsIs(s: string, w: string)
    requires LowerCase(w)
    ensures Begins(s, w) <==> StartsWith(s, w)
  {
    if |w| <= |s| {
      forall i | 0 <= i < |w| ensures Alike(s[i], w[i]) <==> Lower(s[i]) == w[i] {
        LowerExact(s[i], w[i]);
      }
    }
  }

  lemma LowerExact(c: char, w: char)
    requires 'a' <= w <= 'z' || w == ':'
    ensures Alike(c, w) <==> Lower(c) == w
  {
  }

  /** An option is recognised by its name, in upper or lower case; no two names fit the same text. */
  lemma KeywordExact(s: string)
    ensures KeywordOf(s) == Ui <==> Begins(s, "ui") && (|s| == 2 || s[2] == ' ')
    ensures KeywordOf(s) == Pid <==> Begins(s, "pid:")
    ensures KeywordOf(s) == Tid <==> Begins(s, "tid:")
    ensures KeywordOf(s) == Ep <==> Begins(s, "ep:")
    ensures KeywordOf(s) == Name <==> Begins(s, "name:")
    ensures KeywordOf(s) == Type <==> Begins(s, "type:")
    ensures KeywordOf(s) == Pipe <==> Begins(s, "pipe:")
    ensures KeywordOf(s) == Out <==> Begins(s, "out:")
  {
    BeginsIs(s, "ui");
    BeginsIs(s, "pid:");
    BeginsIs(s, "tid:");
    BeginsIs(s, "ep:");
    BeginsIs(s, "name:");
    BeginsIs(s, "type:");
    BeginsIs(s, "pipe:");
    BeginsIs(s, "out:");
    Apart(s);
  }

  lemma Apart(s: string)
    ensures Begins(s, "ui") ==> |s| >= 2 && Lower(s[0]) == 'u'
    ensures Begins(s, "pid:") ==> |s| >= 2 && Lower(s[0]) == 'p' && Lower(s[2]) == 'd'
    ensures Begins(s, "tid:") ==> |s| >= 2 && Lower(s[0]) == 't' && Lower(s[1]) == 'i'
    ensures Begins(s, "ep:") ==> |s| >= 2 && Lower(s[0]) == 'e'
    ensures Begins(s, "name:") ==> |s| >= 2 && Lower(s[0]) == 'n'
    ensures Begins(s, "type:") ==> |s| >= 2 && Lower(s[0]) == 't' && Lower(s[1]) == 'y'
    ensures Begins(s, "pipe:") ==> |s| >= 3 && Lower(s[0]) == 'p' && Lower(s[2]) == 'p'
    ensures Begins(s, "out:") ==> |s| >= 2 && Lower(s[0]) == 'o'
  {
  }

  // ----- numbers -----

  predicate AllSpace(s: string) { forall i :: 0 <= i < |s| ==> s[i] == ' ' || (9 <= s[i] as int <= 13) }

  /** What wcstoul and wcstoull answer for a digit run after white space and a sign: saturated, and wrapped for a minus. */
  lemma NumberMeaning(space: string, sign: string, ds: string, rest: string, max: nat)
    requires AllSpace(space) && sign in {"", "+", "-"}
    requires ds != [] && AllDigits(ds, 10) && EndsRun(rest, 10)
    ensures StrTo(space + (sign + (ds + rest)), 10, max) ==
            (if Value(ds, 10) > max then max else if sign == "-" && Value(ds, 10) > 0 then max + 1 - Value(ds, 10) else Value(ds, 10), rest)
  {
    var s := sign + (ds + rest);
    SignSkipped(sign, ds, rest);
    SpaceSkipped(space, s);
    RunIs(ds, rest, 10);
  }

  lemma SignSkipped(sign: string, ds: string, rest: string)
    requires sign in {"", "+", "-"} && ds != [] && AllDigits(ds, 10)
    ensures var s := sign + (ds + rest); SkipSign(s) == ds + rest && !IsSpace(s[0]) && (s[0] == '-' <==> sign == "-")
  {
    var s := sign + (ds + rest);
    assert IsDigit(ds[0], 10);
    assert s[0] == if sign == "" then ds[0] else sign[0];
    if sign == "" { assert s == ds + rest; } else { assert s[1..] == ds + rest; }
  }

  lemma {:induction false} SpaceSkipped(space: string, s: string)
    requires AllSpace(space) && (s == [] || !IsSpace(s[0]))
    ensures SkipSpaces(space + s) == s
  {
    if space == [] {
      assert space + s == s;
    } else {
      assert (space + s)[1..] == space[1..] + s;
      SpaceSkipped(space[1..], s);
    }
  }

  /** Without a digit nothing is consumed and the number is zero. */
  lemma NoNumber(space: string, sign: string, rest: string, max: nat)
    requires AllSpace(space) && sign in {"", "+", "-"} && EndsRun(rest, 10)
    requires sign == "" ==> rest == [] || (!IsSpace(rest[0]) && rest[0] != '+' && rest[0] != '-')
    ensures StrTo(space + (sign + rest), 10, max) == (0, space + (sign + rest))
  {
    var s := sign + rest;
    SpaceSkipped(space, s);
    assert SkipSign(s) == rest;
  }

  function Clamped(n: nat): nat { if n > 0xFFFF_FFFF_FFFF_FFFF then 0xFFFF_FFFF_FFFF_FFFF else n }

  /** The exception pointer may be written without 0x ... */
  lemma PlainPointer(ds: string, rest: string, o: Options)
    requires ds != [] && AllDigits(ds, 16) && EndsToken(rest)
    ensures ParseOption("ep:" + (ds + rest), o) == Go(rest, o.(ep := Clamped(Value(ds, 16))))
  {
    var x := ds + rest;
    var s := "ep:" + x;
    KeywordRead(Ep, x);
    assert s[3..] == x;
    if |s| > 4 {
      assert s[4] == x[1] && x[1] == if |ds| > 1 then ds[1] else rest[0];
      assert |ds| > 1 ==> IsDigit(ds[1], 16);
    }
    HexRead(ds, rest);
    PlainEp(s, o);
  }

  lemma PlainEp(s: string, o: Options)
    requires KeywordOf(s).Ep? && !(|s| > 4 && s[3] == '0' && (s[4] == 'x' || s[4] == 'X'))
    ensures ParseOption(s, o) == (var (v, t) := StrTo(s[3..], 16, UINT64_MAX); Go(t, o.(ep := v)))
  {
  }

  /** ... or with it, in either case. */
  lemma PrefixedPointer(x: char, ds: string, rest: string, o: Options)
    requires (x == 'x' || x == 'X') && ds != [] && AllDigits(ds, 16) && EndsToken(rest)
    ensures ParseOption("ep:" + (['0', x] + (ds + rest)), o) == Go(rest, o.(ep := Clamped(Value(ds, 16))))
  {
    var tail := ['0', x] + (ds + rest);
    var s := "ep:" + tail;
    KeywordRead(Ep, tail);
    assert |s| > 4 && s[3] == '0' && s[4] == x && s[5..] == ds + rest;
    HexRead(ds, rest);
    PrefixedEp(s, o);
  }

  lemma PrefixedEp(s: string, o: Options)
    requires KeywordOf(s).Ep? && |s| > 4 && s[3] == '0' && (s[4] == 'x' || s[4] == 'X')
    ensures ParseOption(s, o) == (var (v, t) := StrTo(s[5..], 16, UINT64_MAX); Go(t, o.(ep := v)))
  {
  }

  lemma HexRead(ds: string, rest: string)
    requires ds != [] && AllDigits(ds, 16) && EndsToken(rest)
    ensures StrTo(ds + rest, 16, UINT64_MAX) == (Clamped(Value(ds, 16)), rest)
  {
    NumberStart(ds, rest, 16);
    RunIs(ds, rest, 16);
  }

  /** A dump type above 2 means 0. */
  lemma TypeMeaning(n: nat, rest: string, o: Options)
    requires EndsToken(rest)
    ensures ParseOption("type:" + (Print(n, 10) + rest), o) == Go(rest, o.(kind := if n > 2 then 0 else n))
  {
    KeywordRead(Type, Print(n, 10) + rest);
    TypeArm("type:" + (Print(n, 10) + rest), n, rest, o);
  }

  lemma PrintedNumber(n: nat, rest: string)
    requires EndsToken(rest)
    ensures StrTo(Print(n, 10) + rest, 10, ULONG_MAX) == (if n > 0xFFFF_FFFF then 0xFFFF_FFFF else n, rest)
  {
    PrintValue(n, 10);
    assert "" + ("" + (Print(n, 10) + rest)) == Print(n, 10) + rest;
    NumberMeaning("", "", Print(n, 10), rest, ULONG_MAX);
  }

  lemma TypeArm(s: string, n: nat, rest: string, o: Options)
    requires KeywordOf(s).Type? && s[5..] == Print(n, 10) + rest && EndsToken(rest)
    ensures ParseOption(s, o) == Go(rest, o.(kind := if n > 2 then 0 else n))
  {
    PrintedNumber(n, rest);
  }

  /** A second 0x in front of the digits is part of the number, but only if a digit follows. */
  lemma PrefixMeaning(x: char, ds: string, rest: string)
    requires (x == 'x' || x == 'X') && AllDigits(ds, 16) && EndsRun(rest, 16)
    ensures StrTo(['0', x] + (ds + rest), 16, UINT64_MAX) == if ds == [] then (0, [x] + rest) else (Clamped(Value(ds, 16)), rest)
  {
    var s := ['0', x] + (ds + rest);
    assert SkipSpaces(s) == s && SkipSign(s) == s && s[2..] == ds + rest;
    if ds == [] {
      assert s == "0" + ([x] + rest);
      assert |s| > 2 ==> s[2] == rest[0];
      RunIs("0", [x] + rest, 16);
      assert Value("0", 16) == 0 by { assert "0"[..0] == []; }
    } else {
      assert s[2] == ds[0] && IsDigit(ds[0], 16);
      RunIs(ds, rest, 16);
    }
  }

  // ----- texts -----

  predicate EndsText(rest: string) { rest == [] || rest[0] == ' ' || rest[0] == '\t' }

  lemma {:induction false} TextIs(text: string, rest: string)
    requires NoBlank(text) && EndsText(rest)
    ensures TokenLength(text + rest) == |text| && (text + rest)[..|text|] == text && (text + rest)[|text|..] == rest
  {
    if text == [] {
      assert text + rest == rest;
    } else {
      assert (text + rest)[1..] == text[1..] + rest;
      TextIs(text[1..], rest);
    }
  }

  /** At most `n` characters are kept. */
  function First(s: string, n: nat): string { if |s| <= n then s else s[..n] }

  /** The first 63 characters are the name; a version of more than 31 characters ends the process. */
  lemma NameMeaning(text: string, rest: string, o: Options)
    requires NoBlank(text) && EndsText(rest)
    ensures var name := First(text, 63); var r := ParseOption("name:" + (text + rest), o);
            && (r.Stop? <==> !ShortVersion(name))
            && (r.Go? ==>
                  && r.rest == rest && r.o == o.(name := name, version := r.o.version)
                  && ((exists i :: 0 <= i < |name| && VersionAt(name, i)) ==> IsVersion(name, r.o.version))
                  && ((forall i :: 0 <= i < |name| ==> !VersionAt(name, i)) ==> r.o.version == o.version))
  {
    var name := First(text, 63);
    KeywordRead(Name, text + rest);
    TextIs(text, rest);
    ShortVersionExact(name);
    VersionExact(name);
  }

  /** The first 127 characters are the pipe. */
  lemma PipeMeaning(text: string, rest: string, o: Options)
    requires NoBlank(text) && EndsText(rest)
    ensures ParseOption("pipe:" + (text + rest), o) == Go(rest, o.(pipe := First(text, 127)))
  {
    KeywordRead(Pipe, text + rest);
    PipeArm("pipe:" + (text + rest), text, rest, o);
  }

  lemma PipeArm(s: string, text: string, rest: string, o: Options)
    requires KeywordOf(s).Pipe? && s[5..] == text + rest && NoBlank(text) && EndsText(rest)
    ensures ParseOption(s, o) == Go(rest, o.(pipe := First(text, 127)))
  {
    TextIs(text, rest);
  }

  /** An unquoted directory ends at the next blank; the first 259 characters are kept. */
  lemma PlainOutMeaning(text: string, rest: string, o: Options)
    requires NoBlank(text) && EndsText(rest) && (text != [] ==> text[0] != '"')
    ensures ParseOption("out:" + (text + rest), o) == Go(rest, o.(out := First(text, 259)))
  {
    KeywordRead(Out, text + rest);
    PlainOutChars(text, rest);
    PlainOutArm("out:" + (text + rest), text, rest, o);
  }

  lemma PlainOutChars(text: string, rest: string)
    requires EndsText(rest) && (text != [] ==> text[0] != '"')
    ensures var s := "out:" + (text + rest); |s| > 4 ==> s[4] != '"'
  {
    var s := "out:" + (text + rest);
    assert |s| > 4 ==> s[4] == if text != [] then text[0] else rest[0];
  }

  lemma PlainOutArm(s: string, text: string, rest: string, o: Options)
    requires KeywordOf(s).Out? && s[4..] == text + rest && (|s| > 4 ==> s[4] != '"') && NoBlank(text) && EndsText(rest)
    ensures ParseOption(s, o) == Go(rest, o.(out := First(text, 259)))
  {
    TextIs(text, rest);
  }

  /** A quoted one ends at the next quote, which is consumed, or at the end of the text. */
  lemma QuotedOutMeaning(dir: string, rest: string, o: Options)
    requires NoQuote(dir)
    ensures ParseOption("out:" + ("\"" + (dir + ("\"" + rest))), o) == Go(rest, o.(out := First(dir, 259)))
    ensures ParseOption("out:" + ("\"" + dir), o) == Go([], o.(out := First(dir, 259)))
  {
    QuotedIs(dir, rest);
    OutQuoted(dir + ("\"" + rest), o);
    OutQuoted(dir, o);
    NoQuoteIs(dir);
  }

  lemma OutQuoted(x: string, o: Options)
    ensures ParseOption("out:" + ("\"" + x), o) == QuotedOption(x, o)
  {
    KeywordRead(Out, "\"" + x);
    var s := "out:" + ("\"" + x);
    assert s[4] == '"' && s[5..] == x;
    QuotedOut(s, o);
  }

  lemma QuotedOut(s: string, o: Options)
    requires KeywordOf(s).Out? && |s| > 4 && s[4] == '"'
    ensures ParseOption(s, o) == QuotedOption(s[5..], o)
  {
  }

  lemma {:induction false} NoQuoteIs(dir: string)
    requires NoQuote(dir)
    ensures QuotedLength(dir) == |dir|
  {
    if dir != [] { NoQuoteIs(dir[1..]); }
  }

  // ----- the whole text -----

  /** What is no option, and options with unknown names, are skipped up to the next blank. */
  lemma Skipped(text: string, rest: string, o: Options)
    requires text != [] && NoBlank(text) && EndsText(rest) && (text[0] == '/' ==> KeywordOf(text[1..] + rest).Unknown?)
    ensures ParseFrom(text + rest, o) == ParseFrom(rest, o)
  {
    var s := text + rest;
    assert SkipBlanks(s) == s && s[1..] == text[1..] + rest;
    TextIs(text, rest);
    TextIs(text[1..], rest);
  }

  /** Without an option nothing is stored, and the line is not accepted. */
  lemma {:induction false} NoOptions(s: string)
    requires forall i :: 0 <= i < |s| ==> s[i] != '/'
    ensures ParseFrom(s, DEFAULTS) == Some(DEFAULTS) && !Accepted(DEFAULTS)
    ensures DEFAULTS.pid == 0 && DEFAULTS.tid == 0 && DEFAULTS.ep == 0 && DEFAULTS.kind == 0 && DEFAULTS.name == "Unknown"
    ensures !DEFAULTS.ui && DEFAULTS.pipe == "" && DEFAULTS.out == "" && DEFAULTS.version == ""
    decreases |s|
  {
    var t := SkipBlanks(s);
    SkippedIsSuffix(s);
    if t != [] { NoOptions(t[TokenLength(t)..]); }
  }

  lemma {:induction false} SkippedIsSuffix(s: string)
    ensures |SkipBlanks(s)| <= |s| && SkipBlanks(s) == s[|s| - |SkipBlanks(s)|..]
  {
    if s != [] && IsBlank(s[0]) { SkippedIsSuffix(s[1..]); }
  }

  /** Blanks and tabs between options do not matter. */
  lemma BlanksSkipped(blanks: string, s: string, o: Options)
    requires forall i :: 0 <= i < |blanks| ==> blanks[i] == ' ' || blanks[i] == '\t'
    ensures ParseFrom(blanks + s, o) == ParseFrom(s, o)
  {
    BlanksGone(blanks, s);
    SameStart(blanks + s, s, o);
  }

  lemma SameStart(s: string, t: string, o: Options)
    requires SkipBlanks(s) == SkipBlanks(t)
    ensures ParseFrom(s, o) == ParseFrom(t, o)
  {
  }
}
