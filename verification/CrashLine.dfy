/**
 The two printers of the crash-dump command line (MiniDump/MiniDumpFilter.cpp and
 SpawnUiProcess in MiniDump/MiniDump.cpp) and the proof that ParseCommandLine
 reads back what they print, exactly when the quoting rules are respected.
 */
module CrashLine {
  import opened Common
  import opened Digits
  import opened CommandLine

  // ----- what MiniDumpFilter_Init stores -----

  datatype Config = Config(dumper: string, name: string, kind: nat, out: string)

  predicate Stored(c: Config)
  {
    |c.dumper| <= MAX_DIR && 0 < |c.name| <= MAX_NAME && c.kind <= DUMP_FULL && |c.out| <= MAX_DIR
  }

  // ----- the printers -----

  /** What the exception handler adds: who crashed and where the exception record is. */
  datatype Crash = Crash(pid: nat, tid: nat, ep: nat)

  predicate ValidCrash(x: Crash) { 0 < x.pid <= ULONG_MAX && 0 < x.tid <= ULONG_MAX && x.ep <= UINT64_MAX }

  /** %0<width>X: upper-case hexadecimal digits, padded with zeros. */
  function PrintHex(n: nat, width: nat): string
  {
    var ds := Print(n, 16);
    Zeros(if |ds| < width then width - |ds| else 0) + ds
  }

  /** %p on a 64-bit build: sixteen upper-case hexadecimal digits. */
  function PrintPointer(n: nat): string { PrintHex(n, 16) }

  function OutPart(out: string): string { if out == "" then "" else " " + ("/out:\"" + (out + "\"")) }

  /** The arguments printed by MiniDumpFilter_ExceptionHandler. */
  function CrashArguments(c: Config, x: Crash): string
  {
    "/pid:" + (Print(x.pid, 10) + (" " +
    ("/tid:" + (Print(x.tid, 10) + (" " +
    ("/ep:0x" + (PrintPointer(x.ep) + (" " +
    ("/name:" + (c.name + (" " +
    ("/type:" + (Print(c.kind, 10) + OutPart(c.out))))))))))))))
  }

  /** The arguments printed by SpawnUiProcess. */
  function UiArguments(pipe: string, name: string, kind: nat): string
  {
    "/ui" + (" " +
    ("/pipe:" + (pipe + (" " +
    ("/name:" + (name + (" " +
    ("/type:" + Print(kind, 10)))))))))
  }

  function Quoted(program: string, arguments: string): string { "\"" + (program + ("\" " + arguments)) }

  /** What the C runtime passes to wWinMain: the line without the program and the blanks after it. */
  function SkipProgram(s: string, inQuote: bool): string
  {
    if s != [] && s[0] == '"' then SkipProgram(s[1..], !inQuote)
    else if s != [] && (s[0] > ' ' || inQuote) then SkipProgram(s[1..], inQuote)
    else SkipLow(s)
  }

  function SkipLow(s: string): string { if s != [] && s[0] <= ' ' then SkipLow(s[1..]) else s }

  lemma {:induction false} ProgramSkipped(program: string, arguments: string)
    requires NoQuote(program) && arguments != [] && arguments[0] > ' '
    ensures SkipProgram(Quoted(program, arguments), false) == arguments
  {
    assert Quoted(program, arguments)[1..] == program + ("\" " + arguments);
    InsideSkipped(program, arguments);
  }

  lemma {:induction false} InsideSkipped(program: string, arguments: string)
    requires NoQuote(program) && arguments != [] && arguments[0] > ' '
    ensures SkipProgram(program + ("\" " + arguments), true) == arguments
  {
    var s := program + ("\" " + arguments);
    if program == [] {
      assert s[1..] == " " + arguments;
      assert (" " + arguments)[1..] == arguments;
      assert SkipProgram(" " + arguments, false) == SkipLow(" " + arguments) == SkipLow(arguments);
    } else {
      assert s[1..] == program[1..] + ("\" " + arguments);
      InsideSkipped(program[1..], arguments);
    }
  }

  // ----- reading one option back -----

  predicate EndsToken(rest: string) { rest == [] || rest[0] == ' ' }

  lemma NumberRead(ds: string, rest: string, base: nat, max: nat)
    requires IsBase(base) && AllDigits(ds, base) && ds != [] && Value(ds, base) <= max && EndsToken(rest)
    ensures StrTo(ds + rest, base, max) == (Value(ds, base), rest)
  {
    NumberStart(ds, rest, base);
    RunIs(ds, rest, base);
  }

  /** A printed number has no leading blank, sign or prefix to skip. */
  lemma NumberStart(ds: string, rest: string, base: nat)
    requires IsBase(base) && AllDigits(ds, base) && ds != [] && EndsToken(rest)
    ensures var s := ds + rest; SkipSpaces(s) == s && SkipPrefix(SkipSign(s), base) == s && s[0] != '-' && EndsRun(rest, base)
  {
    var s := ds + rest;
    assert IsDigit(s[0], base);
    if |s| > 1 { assert s[1] == if |ds| > 1 then ds[1] else rest[0]; }
  }

  lemma BlankSkipped(s: string, o: Options)
    ensures ParseFrom(" " + s, o) == ParseFrom(s, o)
  {
    assert (" " + s)[1..] == s;
  }

  lemma NotWord(s: string, w: string, i: nat)
    requires i < |w| && (|s| <= i || Lower(s[i]) != w[i])
    ensures !StartsWith(s, w)
  {
  }

  /** The printed form of an option name. */
  function Word(k: Keyword): string
    requires !k.Ui? && !k.Unknown?
  {
    match k
    case Pid => "pid:"
    case Tid => "tid:"
    case Ep => "ep:"
    case Name => "name:"
    case Type => "type:"
    case Pipe => "pipe:"
    case Out => "out:"
  }

  /** Every printed keyword is recognised as itself and as none tested before it. */
  lemma KeywordRead(k: Keyword, x: string)
    requires !k.Ui? && !k.Unknown?
    ensures KeywordOf(Word(k) + x) == k
    ensures (Word(k) + x)[|Word(k)|..] == x
  {
    var w := Word(k);
    var s := w + x;
    assert forall i :: 0 <= i < |w| ==> s[i] == w[i];
    assert forall i :: 0 <= i < |w| ==> Lower(w[i]) == w[i];
    assert StartsWith(s, w);
    NotWord(s, "ui", 0);
    if w[0] != 'p' { NotWord(s, "pid:", 0); NotWord(s, "pipe:", 0); }
    if w[0] != 't' { NotWord(s, "tid:", 0); NotWord(s, "type:", 0); }
    if k.Pipe? { NotWord(s, "pid:", 2); }
    if k.Type? { NotWord(s, "tid:", 1); }
    if w[0] != 'e' { NotWord(s, "ep:", 0); }
    if w[0] != 'n' { NotWord(s, "name:", 0); }
  }

  /** Parsing an option `/w...` is one step of ParseOption. */
  lemma OptionRead(w: string, x: string, o: Options)
    ensures ParseFrom(("/" + w) + x, o) ==
            match ParseOption(w + x, o)
            case Stop => None
            case Go(rest, o') => ParseFrom(rest, o')
  {
    var s := ("/" + w) + x;
    assert s[0] == '/' && SkipBlanks(s) == s && s[1..] == w + x;
  }

  function SetNumber(k: Keyword, n: nat, o: Options): Options
    requires k.Pid? || k.Tid? || k.Type?
  {
    match k
    case Pid => o.(pid := n)
    case Tid => o.(tid := n)
    case Type => o.(kind := n)
  }

  lemma NumberOption(k: Keyword, n: nat, rest: string, o: Options)
    requires k.Pid? || k.Tid? || k.Type?
    requires n <= (if k.Type? then DUMP_FULL else ULONG_MAX) && EndsToken(rest)
    ensures ParseOption(Word(k) + (Print(n, 10) + rest), o) == Go(rest, SetNumber(k, n, o))
  {
    KeywordRead(k, Print(n, 10) + rest);
    PrintValue(n, 10);
    NumberRead(Print(n, 10), rest, 10, ULONG_MAX);
  }

  lemma NumberOptionRead(k: Keyword, n: nat, rest: string, o: Options)
    requires k.Pid? || k.Tid? || k.Type?
    requires n <= (if k.Type? then DUMP_FULL else ULONG_MAX) && EndsToken(rest)
    ensures ParseFrom(("/" + Word(k)) + (Print(n, 10) + rest), o) == ParseFrom(rest, SetNumber(k, n, o))
  {
    OptionRead(Word(k), Print(n, 10) + rest, o);
    NumberOption(k, n, rest, o);
  }

  lemma PointerRead(n: nat, rest: string, o: Options)
    requires n <= UINT64_MAX && EndsToken(rest)
    ensures ParseFrom("/ep:0x" + (PrintPointer(n) + rest), o) == ParseFrom(rest, o.(ep := n))
  {
    EpRegroup(PrintPointer(n) + rest);
    OptionRead("ep:", "0x" + (PrintPointer(n) + rest), o);
    PointerOption(n, rest, o);
  }

  lemma PointerOption(n: nat, rest: string, o: Options)
    requires n <= UINT64_MAX && EndsToken(rest)
    ensures ParseOption("ep:" + ("0x" + (PrintPointer(n) + rest)), o) == Go(rest, o.(ep := n))
  {
    var x := PrintPointer(n) + rest;
    var s := "ep:" + ("0x" + x);
    KeywordRead(Ep, "0x" + x);
    assert |s| > 4 && s[3] == '0' && s[4] == 'x' && s[5..] == x;
    PointerDigits(n, rest);
  }

  lemma PointerDigits(n: nat, rest: string)
    requires n <= UINT64_MAX && EndsToken(rest)
    ensures StrTo(PrintPointer(n) + rest, 16, UINT64_MAX) == (n, rest)
  {
    var ds := Print(n, 16);
    PrintValue(n, 16);
    PaddedValue(if |ds| < 16 then 16 - |ds| else 0, ds, 16);
    NumberRead(PrintPointer(n), rest, 16, UINT64_MAX);
  }

  lemma {:induction false} TokenIs(token: string, rest: string)
    requires NoBlank(token) && EndsToken(rest)
    ensures TokenLength(token + rest) == |token| && (token + rest)[..|token|] == token && (token + rest)[|token|..] == rest
  {
    if token == [] {
      assert token + rest == rest;
    } else {
      assert (token + rest)[1..] == token[1..] + rest;
      TokenIs(token[1..], rest);
    }
  }

  lemma NameRead(name: string, rest: string, o: Options)
    requires NoBlank(name) && |name| <= MAX_NAME && EndsToken(rest)
    ensures ParseFrom("/name:" + (name + rest), o) ==
            if SetName(o, name).None? then None else ParseFrom(rest, SetName(o, name).value)
  {
    assert "/name:" == "/" + "name:";
    OptionRead("name:", name + rest, o);
    KeywordRead(Name, name + rest);
    TokenIs(name, rest);
  }

  lemma PipeRead(pipe: string, rest: string, o: Options)
    requires NoBlank(pipe) && |pipe| <= MAX_PIPE && EndsToken(rest)
    ensures ParseFrom("/pipe:" + (pipe + rest), o) == ParseFrom(rest, o.(pipe := pipe))
  {
    assert "/pipe:" == "/" + "pipe:";
    OptionRead("pipe:", pipe + rest, o);
    PipeOption(pipe, rest, o);
  }

  lemma PipeOption(pipe: string, rest: string, o: Options)
    requires NoBlank(pipe) && |pipe| <= MAX_PIPE && EndsToken(rest)
    ensures ParseOption("pipe:" + (pipe + rest), o) == Go(rest, o.(pipe := pipe))
  {
    KeywordRead(Pipe, pipe + rest);
    PipeStored("pipe:" + (pipe + rest), pipe, rest, o);
  }

  lemma PipeStored(s: string, pipe: string, rest: string, o: Options)
    requires KeywordOf(s).Pipe? && s[5..] == pipe + rest
    requires NoBlank(pipe) && |pipe| <= MAX_PIPE && EndsToken(rest)
    ensures ParseOption(s, o) == Go(rest, o.(pipe := pipe))
  {
    TokenIs(pipe, rest);
  }

  lemma {:induction false} QuotedIs(dir: string, rest: string)
    requires NoQuote(dir)
    ensures QuotedLength(dir + ("\"" + rest)) == |dir|
    ensures (dir + ("\"" + rest))[..|dir|] == dir && (dir + ("\"" + rest))[|dir| + 1..] == rest
  {
    var s := dir + ("\"" + rest);
    if dir != [] {
      assert s[1..] == dir[1..] + ("\"" + rest);
      QuotedIs(dir[1..], rest);
    }
  }

  /** Up to the first quote everything is directory: blanks and slashes included. */
  lemma OutRead(dir: string, rest: string, o: Options)
    requires NoQuote(dir) && |dir| <= MAX_DIR
    ensures ParseFrom("/out:\"" + (dir + ("\"" + rest)), o) == ParseFrom(rest, o.(out := dir))
  {
    OutRegroup(dir + ("\"" + rest));
    OptionRead("out:", "\"" + (dir + ("\"" + rest)), o);
    OutOption(dir, rest, o);
  }

  /** Where the slash, the option name and an opening mark end does not matter. */
  lemma Regroup(w: string, mark: string, x: string)
    ensures (("/" + w) + mark) + x == ("/" + w) + (mark + x)
  {
  }

  lemma OutRegroup(x: string)
    ensures "/out:\"" + x == ("/" + "out:") + ("\"" + x)
  {
    assert "/out:\"" == ("/" + "out:") + "\"";
    Regroup("out:", "\"", x);
  }

  lemma EpRegroup(x: string)
    ensures "/ep:0x" + x == ("/" + "ep:") + ("0x" + x)
  {
    assert "/ep:0x" == ("/" + "ep:") + "0x";
    Regroup("ep:", "0x", x);
  }

  lemma OutOption(dir: string, rest: string, o: Options)
    requires NoQuote(dir) && |dir| <= MAX_DIR
    ensures ParseOption("out:" + ("\"" + (dir + ("\"" + rest))), o) == Go(rest, o.(out := dir))
  {
    var x := dir + ("\"" + rest);
    var s := "out:" + ("\"" + x);
    KeywordRead(Out, "\"" + x);
    assert |s| > 4 && s[4] == '"' && s[5..] == x;
    OutStored(s, dir, rest, o);
  }

  lemma OutStored(s: string, dir: string, rest: string, o: Options)
    requires KeywordOf(s).Out? && |s| > 4 && s[4] == '"' && s[5..] == dir + ("\"" + rest)
    requires NoQuote(dir) && |dir| <= MAX_DIR
    ensures ParseOption(s, o) == Go(rest, o.(out := dir))
  {
    QuotedIs(dir, rest);
  }

  // ----- round trips -----

  /** What follows the first "-v" has at most 31 characters. */
  ghost predicate ShortVersion(name: string)
  {
    forall i :: 0 <= i < |name| && FirstVersionAt(name, i) ==> |name| - (i + 2) <= 31
  }

  /** `v` is what follows the first "-v" of the name, or empty without one. */
  ghost predicate IsVersion(name: string, v: string)
  {
    && (forall i :: 0 <= i < |name| && FirstVersionAt(name, i) ==> v == name[i + 2..])
    && ((forall i :: 0 <= i < |name| ==> !VersionAt(name, i)) ==> v == "")
  }

  lemma {:induction false} SomeFirst(name: string, i: nat)
    requires i < |name| && VersionAt(name, i)
    ensures exists k :: 0 <= k <= i && FirstVersionAt(name, k)
  {
    if k :| 0 <= k < i && VersionAt(name, k) { SomeFirst(name, k); } else { assert FirstVersionAt(name, i); }
  }

  lemma ShortVersionExact(name: string)
    ensures ShortVersion(name) <==> (VersionOf(name).Some? ==> |VersionOf(name).value| <= MAX_VERSION)
    ensures IsVersion(name, VersionText(name))
  {
    VersionExact(name);
    if i :| 0 <= i < |name| && VersionAt(name, i) {
      SomeFirst(name, i);
      var k :| 0 <= k <= i && FirstVersionAt(name, k);
      assert VersionOf(name) == Some(name[k + 2..]);
    }
  }

  function WithVersion(o: Options, name: string): Options
  {
    match VersionOf(name)
    case None => o
    case Some(v) => o.(version := v)
  }

  /** The name, the type and the directory, which both printers end with. */
  function NamePart(name: string, tail: string): string { "/name:" + (name + (" " + tail)) }

  function TypePart(kind: nat, out: string): string { "/type:" + (Print(kind, 10) + OutPart(out)) }

  lemma TypeAndOutRead(kind: nat, out: string, o: Options)
    requires kind <= DUMP_FULL && NoQuote(out) && |out| <= MAX_DIR
    ensures ParseFrom(TypePart(kind, out), o) == Some(if out == "" then o.(kind := kind) else o.(kind := kind, out := out))
  {
    assert "/type:" == "/" + "type:";
    NumberOptionRead(Type, kind, OutPart(out), o);
    if out != "" {
      BlankSkipped("/out:\"" + (out + "\""), o.(kind := kind));
      assert "\"" + [] == "\"";
      OutRead(out, [], o.(kind := kind));
    }
  }

  /** The numbers at the front of the crash line. */
  lemma CrashNumbersRead(x: Crash, rest: string, o: Options)
    requires ValidCrash(x)
    ensures ParseFrom("/pid:" + (Print(x.pid, 10) + (" " + ("/tid:" + (Print(x.tid, 10) + (" " +
                      ("/ep:0x" + (PrintPointer(x.ep) + (" " + rest)))))))), o)
            == ParseFrom(rest, o.(pid := x.pid, tid := x.tid, ep := x.ep))
  {
    var r3 := " " + rest;
    var s3 := "/ep:0x" + (PrintPointer(x.ep) + r3);
    var r2 := " " + s3;
    var s2 := "/tid:" + (Print(x.tid, 10) + r2);
    var r1 := " " + s2;
    assert "/pid:" == "/" + "pid:" && "/tid:" == "/" + "tid:";
    NumberOptionRead(Pid, x.pid, r1, o);
    var o1 := o.(pid := x.pid);
    BlankSkipped(s2, o1);
    NumberOptionRead(Tid, x.tid, r2, o1);
    var o2 := o1.(tid := x.tid);
    BlankSkipped(s3, o2);
    PointerRead(x.ep, r3, o2);
    BlankSkipped(rest, o2.(ep := x.ep));
  }

  lemma NamePartRead(name: string, tail: string, o: Options)
    requires NoBlank(name) && |name| <= MAX_NAME
    ensures ParseFrom(NamePart(name, tail), o) ==
            if ShortVersion(name) then ParseFrom(tail, WithVersion(o.(name := name), name)) else None
  {
    NameRead(name, " " + tail, o);
    ShortVersionExact(name);
    if ShortVersion(name) { BlankSkipped(tail, WithVersion(o.(name := name), name)); }
  }

  /** Everything the exception handler printed. */
  predicate Recovers(o: Options, c: Config, x: Crash)
  {
    o.pid == x.pid && o.tid == x.tid && o.ep == x.ep && o.name == c.name && o.kind == c.kind && o.out == c.out
  }

  function Numbers(x: Crash): Options { DEFAULTS.(pid := x.pid, tid := x.tid, ep := x.ep) }

  /** Up to the name the crash line is read back; only the type and the directory remain. */
  lemma CrashFrontRead(c: Config, x: Crash)
    requires Stored(c) && ValidCrash(x) && NoBlank(c.name)
    ensures ParseFrom(CrashArguments(c, x), DEFAULTS) ==
            if ShortVersion(c.name)
            then ParseFrom(TypePart(c.kind, c.out), WithVersion(Numbers(x).(name := c.name), c.name)) else None
  {
    CrashNumbersRead(x, NamePart(c.name, TypePart(c.kind, c.out)), DEFAULTS);
    NamePartRead(c.name, TypePart(c.kind, c.out), Numbers(x));
  }

  /** Parsing undoes printing for well-formed names and directories, starting from the defaults. */
  lemma CrashRoundTrip(c: Config, x: Crash)
    requires Stored(c) && ValidCrash(x) && NoBlank(c.name) && NoQuote(c.out) && ShortVersion(c.name)
    ensures var r := ParseFrom(CrashArguments(c, x), DEFAULTS);
            r.Some? && Recovers(r.value, c, x) && Accepted(r.value)
            && IsVersion(c.name, r.value.version)
  {
    CrashFrontRead(c, x);
    TypeAndOutRead(c.kind, c.out, WithVersion(Numbers(x).(name := c.name), c.name));
    ShortVersionExact(c.name);
  }

  function VersionText(name: string): string { if VersionOf(name).Some? then VersionOf(name).value else "" }

  /** What the user-interface process reads from its line. */
  function UiOptions(pipe: string, name: string, kind: nat): Options
  {
    DEFAULTS.(ui := true, pipe := pipe, name := name, kind := kind, version := VersionText(name))
  }

  lemma UiNameRead(name: string, kind: nat, o: Options)
    requires NoBlank(name) && |name| <= MAX_NAME && kind <= DUMP_FULL
    ensures ParseFrom(" " + NamePart(name, TypePart(kind, "")), o) ==
            if ShortVersion(name) then Some(WithVersion(o.(name := name), name).(kind := kind)) else None
  {
    BlankSkipped(NamePart(name, TypePart(kind, "")), o);
    NamePartRead(name, TypePart(kind, ""), o);
    if ShortVersion(name) { TypeAndOutRead(kind, "", WithVersion(o.(name := name), name)); }
  }

  /** Likewise for the line that starts the user-interface process. */
  lemma UiRoundTrip(pipe: string, name: string, kind: nat)
    requires NoBlank(pipe) && |pipe| <= MAX_PIPE && NoBlank(name) && |name| <= MAX_NAME && kind <= DUMP_FULL
    ensures ParseFrom(UiArguments(pipe, name, kind), DEFAULTS) ==
            if ShortVersion(name) then Some(UiOptions(pipe, name, kind)) else None
  {
    var r1 := " " + NamePart(name, TypePart(kind, ""));
    var s1 := "/pipe:" + (pipe + r1);
    assert Print(kind, 10) + "" == Print(kind, 10);
    UiRead(" " + s1, DEFAULTS);
    var o := DEFAULTS.(ui := true);
    BlankSkipped(s1, o);
    PipeRead(pipe, r1, o);
    UiNameRead(name, kind, o.(pipe := pipe));
  }

  lemma UiRead(rest: string, o: Options)
    requires rest != [] && rest[0] == ' '
    ensures ParseFrom("/ui" + rest, o) == ParseFrom(rest, o.(ui := true))
  {
    assert "/ui" == "/" + "ui";
    OptionRead("ui", rest, o);
    var s := "ui" + rest;
    assert s[0] == 'u' && s[1] == 'i' && s[2] == ' ' && s[2..] == rest;
    assert KeywordOf(s) == Ui;
  }

  // ----- exactly when the round trip works -----

  /** What every stored name, type and pipe satisfies, whatever text was parsed. */
  ghost predicate Storable(o: Options)
  {
    && NoBlank(o.name) && |o.name| <= MAX_NAME && ShortVersion(o.name)
    && o.kind <= DUMP_FULL
    && NoBlank(o.pipe) && |o.pipe| <= MAX_PIPE
  }

  lemma NameOptionStorable(s: string, o: Options)
    requires Storable(o)
    ensures var r := NameOption(s, o); r.Go? ==> Storable(r.o)
  {
    ShortVersionExact(Cut(s[..TokenLength(s)], MAX_NAME));
  }

  lemma OptionKeepsStorable(s: string, o: Options)
    requires Storable(o)
    ensures var r := ParseOption(s, o); r.Go? ==> Storable(r.o)
  {
    match KeywordOf(s)
    case Name =>
      assert ParseOption(s, o) == NameOption(s[5..], o);
      NameOptionStorable(s[5..], o);
    case Pipe =>
      var k := TokenLength(s[5..]);
      assert NoBlank(Cut(s[5..][..k], MAX_PIPE));
    case _ =>
  }

  /**
   The parser never stores a name or a pipe with a blank in it, nor a type above
   the last one, and it does not return once a version was too long to store.
   */
  lemma {:induction false} StaysStorable(s: string, o: Options)
    requires Storable(o)
    ensures var r := ParseFrom(s, o); r.Some? ==> Storable(r.value)
    decreases |s|
  {
    var t := SkipBlanks(s);
    if t != [] && t[0] == '/' {
      OptionKeepsStorable(t[1..], o);
      var r := ParseOption(t[1..], o);
      if r.Go? { StaysStorable(r.rest, r.o); }
    } else if t != [] {
      StaysStorable(t[TokenLength(t)..], o);
    }
  }

  lemma OptionBoundsOut(s: string, o: Options)
    ensures var r := ParseOption(s, o); r.Go? ==> r.o.out == o.out || |r.o.out| + 4 <= |s|
  {
    match KeywordOf(s)
    case Name => assert ParseOption(s, o) == NameOption(s[5..], o);
    case Out => if |s| > 4 && s[4] == '"' { assert ParseOption(s, o) == QuotedOption(s[5..], o); }
    case _ =>
  }

  /** A directory stored by the parser is shorter than the text it came from. */
  lemma {:induction false} OutStaysShort(s: string, o: Options)
    ensures var r := ParseFrom(s, o); r.Some? ==> r.value.out == o.out || |r.value.out| + 5 <= |s|
    decreases |s|
  {
    var t := SkipBlanks(s);
    if t != [] && t[0] == '/' {
      OptionBoundsOut(t[1..], o);
      var r := ParseOption(t[1..], o);
      if r.Go? { OutStaysShort(r.rest, r.o); }
    } else if t != [] {
      OutStaysShort(t[TokenLength(t)..], o);
    }
  }

  /** A directory with a quote in it comes back as something else. */
  lemma QuoteLosesOut(kind: nat, out: string, o: Options)
    requires kind <= DUMP_FULL && !NoQuote(out) && |out| <= MAX_DIR
    ensures var r := ParseFrom(TypePart(kind, out), o); r.Some? ==> r.value.out != out
  {
    assert "/type:" == "/" + "type:";
    NumberOptionRead(Type, kind, OutPart(out), o);
    var o1 := o.(kind := kind);
    BlankSkipped("/out:\"" + (out + "\""), o1);
    QuoteCutsOut(out, o1);
  }

  lemma QuoteCutsOut(out: string, o: Options)
    requires !NoQuote(out) && |out| <= MAX_DIR
    ensures var r := ParseFrom("/out:\"" + (out + "\""), o); r.Some? ==> r.value.out != out
  {
    var k := QuotedLength(out);
    var dir, tail := out[..k], out[k + 1..];
    assert out + "\"" == dir + ("\"" + (tail + "\""));
    OutRead(dir, tail + "\"", o);
    OutStaysShort(tail + "\"", o.(out := dir));
  }

  /** What the started process ends up with. */
  function Received(c: Config, x: Crash): Option<Options>
  {
    ParseFrom(SkipProgram(Quoted(c.dumper, CrashArguments(c, x)), false), DEFAULTS)
  }

  predicate RecoveredBy(r: Option<Options>, c: Config, x: Crash) { r.Some? && Recovers(r.value, c, x) }

  lemma DefaultsStorable()
    ensures Storable(DEFAULTS)
  {
    var n := "Unknown";
    assert forall i :: 0 <= i < |n| ==> n[i] != '-' && !IsBlank(n[i]);
    NoDashNoVersion(n);
    ShortVersionExact(n);
  }

  lemma {:induction false} NoDashNoVersion(name: string)
    requires forall i :: 0 <= i < |name| ==> name[i] != '-'
    ensures VersionOf(name).None?
  {
    if |name| >= 2 { NoDashNoVersion(name[1..]); }
  }

  lemma RecoveredNameUnbroken(s: string, c: Config, x: Crash)
    requires RecoveredBy(ParseFrom(s, DEFAULTS), c, x)
    ensures NoBlank(c.name)
  {
    DefaultsStorable();
    StaysStorable(s, DEFAULTS);
  }

  lemma RecoveredVersionShort(c: Config, x: Crash)
    requires Stored(c) && ValidCrash(x) && NoBlank(c.name)
    requires RecoveredBy(ParseFrom(CrashArguments(c, x), DEFAULTS), c, x)
    ensures ShortVersion(c.name)
    ensures RecoveredBy(ParseFrom(TypePart(c.kind, c.out), WithVersion(Numbers(x).(name := c.name), c.name)), c, x)
  {
    CrashFrontRead(c, x);
  }

  lemma OnlyIfWellFormed(c: Config, x: Crash)
    requires Stored(c) && ValidCrash(x) && RecoveredBy(ParseFrom(CrashArguments(c, x), DEFAULTS), c, x)
    ensures NoBlank(c.name) && ShortVersion(c.name) && NoQuote(c.out)
  {
    RecoveredNameUnbroken(CrashArguments(c, x), c, x);
    RecoveredVersionShort(c, x);
    if !NoQuote(c.out) {
      QuoteLosesOut(c.kind, c.out, WithVersion(Numbers(x).(name := c.name), c.name));
    }
  }

  /**
   For every stored configuration and every crash, the process that is started
   recovers all six items exactly when the name has no blank, the version suffix
   fits its buffer and the directory has no quote; it then accepts the line.
   */
  lemma CrashLineExact(c: Config, x: Crash)
    requires Stored(c) && ValidCrash(x) && NoQuote(c.dumper)
    ensures RecoveredBy(Received(c, x), c, x) <==> NoBlank(c.name) && ShortVersion(c.name) && NoQuote(c.out)
    ensures RecoveredBy(Received(c, x), c, x) ==> Accepted(Received(c, x).value)
  {
    var s := CrashArguments(c, x);
    ProgramSkipped(c.dumper, s);
    assert Received(c, x) == ParseFrom(s, DEFAULTS);
    if RecoveredBy(Received(c, x), c, x) {
      OnlyIfWellFormed(c, x);
      CrashRoundTrip(c, x);
    } else if NoBlank(c.name) && ShortVersion(c.name) && NoQuote(c.out) {
      CrashRoundTrip(c, x);
    }
  }

  /** The printed line fits the 1024-character buffer, so neither call truncates or aborts. */
  lemma CrashLineFits(c: Config, x: Crash)
    requires Stored(c) && ValidCrash(x)
    ensures |Quoted(c.dumper, CrashArguments(c, x))| < 1024
  {
    assert Pow(10, 10) == 10_000_000_000;
    PrintLength(x.pid, 10, 10);
    PrintLength(x.tid, 10, 10);
    PrintLength(c.kind, 10, 1);
    assert Pow(16, 8) == TWO32;
    assert Pow(16, 16) == TWO64 by { assert Pow(16, 12) == TWO32 * TWO16; }
    PrintLength(x.ep, 16, 16);
  }

  // ----- the user-interface line -----

  function ReceivedUi(program: string, pipe: string, name: string, kind: nat): Option<Options>
  {
    ParseFrom(SkipProgram(Quoted(program, UiArguments(pipe, name, kind)), false), DEFAULTS)
  }

  predicate UiRecovered(r: Option<Options>, pipe: string, name: string, kind: nat)
  {
    r.Some? && r.value.ui && r.value.pipe == pipe && r.value.name == name && r.value.kind == kind
  }

  /** The user-interface line gives back pipe, name and type exactly when the two texts have no blank and the version fits. */
  lemma UiLineExact(program: string, pipe: string, name: string, kind: nat)
    requires NoQuote(program) && |pipe| <= MAX_PIPE && |name| <= MAX_NAME && kind <= DUMP_FULL
    ensures UiRecovered(ReceivedUi(program, pipe, name, kind), pipe, name, kind) <==>
            NoBlank(pipe) && NoBlank(name) && ShortVersion(name)
    ensures NoBlank(pipe) && NoBlank(name) && ShortVersion(name) ==>
            ReceivedUi(program, pipe, name, kind) == Some(UiOptions(pipe, name, kind))
  {
    var s := UiArguments(pipe, name, kind);
    ProgramSkipped(program, s);
    assert ReceivedUi(program, pipe, name, kind) == ParseFrom(s, DEFAULTS);
    DefaultsStorable();
    StaysStorable(s, DEFAULTS);
    if NoBlank(pipe) && NoBlank(name) { UiRoundTrip(pipe, name, kind); }
  }

  /** The pipe is named after the process that serves it (line 1209 of MiniDump.cpp). */
  function PipeName(pid: nat): string { "\\\\.\\pipe\\MiniDump_" + PrintHex(pid, 8) }

  lemma HexDigits(n: nat, width: nat)
    requires width > 0 && n < Pow(16, width)
    ensures |PrintHex(n, width)| == width && AllDigits(PrintHex(n, width), 16)
  {
    PrintLength(n, 16, width);
  }

  lemma PipeNameFits(pid: nat)
    requires pid <= ULONG_MAX
    ensures NoBlank(PipeName(pid)) && 0 < |PipeName(pid)| < 64
  {
    assert Pow(16, 8) == TWO32;
    HexDigits(pid, 8);
    var front := "\\\\.\\pipe\\MiniDump_";
    assert NoBlank(front);
    Unbroken(front, PrintHex(pid, 8));
  }

  lemma Unbroken(front: string, ds: string)
    requires NoBlank(front) && AllDigits(ds, 16)
    ensures NoBlank(front + ds)
  {
    assert forall i :: 0 <= i < |ds| ==> IsDigit(ds[i], 16);
  }

  /** The pointer is printed with sixteen digits and the process id in the pipe name with eight. */
  lemma HexExact(ep: nat, pid: nat)
    requires ep <= UINT64_MAX && pid <= ULONG_MAX
    ensures |PrintPointer(ep)| == 16 && AllDigits(PrintPointer(ep), 16) && Value(PrintPointer(ep), 16) == ep
    ensures exists ds :: PipeName(pid) == "\\\\.\\pipe\\MiniDump_" + ds && |ds| == 8 && AllDigits(ds, 16) && Value(ds, 16) == pid
  {
    assert Pow(16, 8) == TWO32;
    assert Pow(16, 16) == TWO64 by { assert Pow(16, 12) == TWO32 * TWO16; }
    HexValue(ep, 16);
    HexValue(pid, 8);
  }

  lemma HexValue(n: nat, width: nat)
    requires width > 0 && n < Pow(16, width)
    ensures var ds := PrintHex(n, width); |ds| == width && AllDigits(ds, 16) && Value(ds, 16) == n
  {
    HexDigits(n, width);
    PrintValue(n, 16);
    PaddedValue(if |Print(n, 16)| < width then width - |Print(n, 16)| else 0, Print(n, 16), 16);
  }

  /** The line fits the 512-character buffer of SpawnUiProcess. */
  lemma UiLineFits(program: string, pipe: string, name: string, kind: nat)
    requires |program| <= MAX_DIR && |pipe| < 64 && |name| <= MAX_NAME && kind <= DUMP_FULL
    ensures |Quoted(program, UiArguments(pipe, name, kind))| < 512
  {
    PrintLength(kind, 10, 1);
  }

  /**
   Whatever text the dump process was started with: if it got past its own
   options, the line it prints for the user interface fits, and the process
   started with it accepts it and knows the pipe, the name and the type.
   */
  lemma UiStarts(s: string, program: string, pid: nat)
    requires ParseFrom(s, DEFAULTS).Some? && NoQuote(program) && |program| <= MAX_DIR && pid <= ULONG_MAX
    ensures var o := ParseFrom(s, DEFAULTS).value;
            var pipe := PipeName(pid);
            && |Quoted(program, UiArguments(pipe, o.name, o.kind))| < 512
            && ReceivedUi(program, pipe, o.name, o.kind) == Some(UiOptions(pipe, o.name, o.kind))
            && Accepted(UiOptions(pipe, o.name, o.kind))
  {
    var o := ParseFrom(s, DEFAULTS).value;
    DefaultsStorable();
    StaysStorable(s, DEFAULTS);
    PipeNameFits(pid);
    UiLineFits(program, PipeName(pid), o.name, o.kind);
    UiLineExact(program, PipeName(pid), o.name, o.kind);
  }

  // ----- printing the crash line -----

  /** Lines 212-228 of MiniDumpFilter.cpp: the format, then the directory appended if there is one. */
  method BuildCrashLine(c: Config, x: Crash) returns (line: string)
    requires Stored(c) && ValidCrash(x)
    ensures line == Quoted(c.dumper, CrashArguments(c, x)) && |line| < 1024
  {
    ghost var kindOut := Print(c.kind, 10) + OutPart(c.out);
    line := "\"" + c.dumper + "\" ";
    var arguments := "/type:" + Print(c.kind, 10);
    if c.out != "" {
      var szOut := " /out:\"" + c.out + "\"";
      assert szOut == OutPart(c.out);
      arguments := arguments + szOut;
    }
    assert arguments == "/type:" + kindOut;
    arguments := "/ep:0x" + (PrintPointer(x.ep) + (" " + ("/name:" + (c.name + (" " + arguments)))));
    arguments := "/pid:" + (Print(x.pid, 10) + (" " + ("/tid:" + (Print(x.tid, 10) + (" " + arguments)))));
    line := line + arguments;
    CrashLineFits(c, x);
  }

  /** An application name with a blank in it is cut at the blank. */
  lemma BlankNameLost(x: Crash)
    requires ValidCrash(x)
    ensures var c := Config("d", "Task Explorer", 0, "");
            Stored(c) && !RecoveredBy(Received(c, x), c, x)
  {
    var c := Config("d", "Task Explorer", 0, "");
    assert c.name[4] == ' ';
    CrashLineExact(c, x);
  }
}
