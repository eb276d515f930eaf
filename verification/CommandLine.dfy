/**
 The command line of the crash-dump helper: ParseCommandLine of
 MiniDump/MiniDump.cpp as a cursor-driven method, proved against a function on
 the remaining text. A string here is the text before the terminating NUL, and
 a pointer into it is the text from there on.
 */
module CommandLine {
  import opened Common
  import opened Digits

  const ULONG_MAX: nat := TWO32 - 1
  const MAX_NAME: nat := 63
  const MAX_VERSION: nat := 31
  const MAX_PIPE: nat := 127
  const MAX_DIR: nat := 259
  const DUMP_TRIAGE: nat := 0
  const DUMP_FULL: nat := 2

  /** The globals ParseCommandLine fills in. */
  datatype Options = Options(
    ui: bool, pid: nat, tid: nat, ep: nat, name: string, version: string, kind: nat, pipe: string, out: string)

  const DEFAULTS := Options(false, 0, 0, 0, "Unknown", "", DUMP_TRIAGE, "", "")

  // ----- wcstoul and wcstoull -----

  predicate IsSpace(c: char) { c == ' ' || '\t' <= c <= '\r' }

  function SkipSpaces(s: string): (r: string)
    ensures |r| <= |s|
  {
    if s != [] && IsSpace(s[0]) then SkipSpaces(s[1..]) else s
  }

  function SkipSign(s: string): (r: string)
    ensures |r| <= |s|
  {
    if s != [] && (s[0] == '+' || s[0] == '-') then s[1..] else s
  }

  /** In base 16 an optional 0x is part of the number if a digit follows. */
  function SkipPrefix(s: string, base: nat): (r: string)
    ensures |r| <= |s|
  {
    if base == 16 && |s| > 2 && s[0] == '0' && (s[1] == 'x' || s[1] == 'X') && IsDigit(s[2], 16) then s[2..] else s
  }

  /** The converted value and the text after it; nothing is consumed if there is no digit. */
  function StrTo(s: string, base: nat, max: nat): (r: (nat, string))
    requires IsBase(base)
    ensures |r.1| <= |s| && r.0 <= max
  {
    var t := SkipSpaces(s);
    var ds := SkipPrefix(SkipSign(t), base);
    var k := RunLength(ds, base);
    if k == 0 then (0, s)
    else
      var v := Value(ds[..k], base);
      if v > max then (max, ds[k..])
      else if t[0] == '-' && v > 0 then (max + 1 - v, ds[k..])
      else (v, ds[k..])
  }

  // ----- tokens -----

  function Lower(c: char): char { if 'A' <= c <= 'Z' then c - 'A' + 'a' else c }

  /** _wcsnicmp(s, w, |w|) == 0, for a lower-case word `w`. */
  predicate StartsWith(s: string, w: string)
  {
    |s| >= |w| && forall i :: 0 <= i < |w| ==> Lower(s[i]) == w[i]
  }

  predicate NoBlank(s: string) { forall i :: 0 <= i < |s| ==> !IsBlank(s[i]) }
  predicate NoQuote(s: string) { forall i :: 0 <= i < |s| ==> s[i] != '"' }

  /** Length of the text up to the next blank. */
  function TokenLength(s: string): (k: nat)
    ensures k <= |s| && NoBlank(s[..k]) && (k < |s| ==> IsBlank(s[k]))
  {
    if s != [] && !IsBlank(s[0]) then 1 + TokenLength(s[1..]) else 0
  }

  /** Length of the text up to the next quote. */
  function QuotedLength(s: string): (k: nat)
    ensures k <= |s| && NoQuote(s[..k]) && (k < |s| ==> s[k] == '"')
  {
    if s != [] && s[0] != '"' then 1 + QuotedLength(s[1..]) else 0
  }

  function Cut(s: string, limit: nat): string { if |s| > limit then s[..limit] else s }

  /** What follows the first "-v", if there is one. */
  function VersionOf(name: string): Option<string>
  {
    if |name| < 2 then None
    else if name[0] == '-' && name[1] == 'v' then Some(name[2..])
    else VersionOf(name[1..])
  }

  /** "-v" starts at position `i`. */
  predicate VersionAt(name: string, i: nat) { i + 1 < |name| && name[i] == '-' && name[i + 1] == 'v' }

  predicate FirstVersionAt(name: string, i: nat) { VersionAt(name, i) && forall j :: 0 <= j < i ==> !VersionAt(name, j) }

  /** The version is what follows the first "-v"; there is none exactly if "-v" occurs nowhere. */
  lemma {:induction false} VersionExact(name: string)
    ensures VersionOf(name) == None <==> forall i :: 0 <= i < |name| ==> !VersionAt(name, i)
    ensures forall i :: 0 <= i < |name| && FirstVersionAt(name, i) ==> VersionOf(name) == Some(name[i + 2..])
  {
    if |name| >= 2 && !VersionAt(name, 0) {
      var rest := name[1..];
      VersionExact(rest);
      assert forall i :: 0 <= i < |rest| ==> (VersionAt(rest, i) <==> VersionAt(name, i + 1));
      forall i | 0 <= i < |name| && FirstVersionAt(name, i) ensures VersionOf(name) == Some(name[i + 2..]) {
        assert FirstVersionAt(rest, i - 1) && rest[i - 1 + 2..] == name[i + 2..];
      }
      forall i | 0 <= i < |name| && VersionAt(name, i) ensures VersionOf(name).Some? { assert VersionAt(rest, i - 1); }
    }
  }

  /** The name is stored; a version longer than its buffer makes wcscpy_s abort the process. */
  function SetName(o: Options, name: string): Option<Options>
  {
    match VersionOf(name)
    case None => Some(o.(name := name))
    case Some(v) => if |v| > MAX_VERSION then None else Some(o.(name := name, version := v))
  }

  // ----- the specification -----

  datatype Keyword = Ui | Pid | Tid | Ep | Name | Type | Pipe | Out | Unknown

  /** Which option the text after a slash names; the order of the tests is the program's. */
  function KeywordOf(s: string): Keyword
  {
    if StartsWith(s, "ui") && (|s| == 2 || s[2] == ' ') then Ui
    else if StartsWith(s, "pid:") then Pid
    else if StartsWith(s, "tid:") then Tid
    else if StartsWith(s, "ep:") then Ep
    else if StartsWith(s, "name:") then Name
    else if StartsWith(s, "type:") then Type
    else if StartsWith(s, "pipe:") then Pipe
    else if StartsWith(s, "out:") then Out
    else Unknown
  }

  datatype Step = Go(rest: string, o: Options) | Stop

  /** One option; `s` is the text after the slash. */
  function ParseOption(s: string, o: Options): (r: Step)
    ensures r.Go? ==> |r.rest| <= |s|
  {
    match KeywordOf(s)
    case Ui => Go(s[2..], o.(ui := true))
    case Pid => var (v, t) := StrTo(s[4..], 10, ULONG_MAX); Go(t, o.(pid := v))
    case Tid => var (v, t) := StrTo(s[4..], 10, ULONG_MAX); Go(t, o.(tid := v))
    case Ep =>
      var prefixed := |s| > 4 && s[3] == '0' && (s[4] == 'x' || s[4] == 'X');
      var (v, t) := StrTo(s[if prefixed then 5 else 3..], 16, UINT64_MAX);
      Go(t, o.(ep := v))
    case Name => NameOption(s[5..], o)
    case Type =>
      var (v, t) := StrTo(s[5..], 10, ULONG_MAX);
      Go(t, o.(kind := if v > DUMP_FULL then DUMP_TRIAGE else v))
    case Pipe => var k := TokenLength(s[5..]); Go(s[5..][k..], o.(pipe := Cut(s[5..][..k], MAX_PIPE)))
    case Out =>
      if |s| > 4 && s[4] == '"' then QuotedOption(s[5..], o)
      else var k := TokenLength(s[4..]); Go(s[4..][k..], o.(out := Cut(s[4..][..k], MAX_DIR)))
    case Unknown => Go(s[TokenLength(s)..], o)
  }

  function NameOption(s: string, o: Options): (r: Step)
    ensures r.Go? ==> |r.rest| <= |s|
  {
    var k := TokenLength(s);
    match SetName(o, Cut(s[..k], MAX_NAME))
    case None => Stop
    case Some(named) => Go(s[k..], named)
  }

  /** The directory up to the closing quote, which is skipped if it is there. */
  function QuotedOption(s: string, o: Options): (r: Step)
    ensures r.Go? ==> |r.rest| <= |s|
  {
    var k := QuotedLength(s);
    Go(if k < |s| then s[k + 1..] else [], o.(out := Cut(s[..k], MAX_DIR)))
  }

  /** The options after the whole text, or `None` if a copy aborted the process. */
  function ParseFrom(s: string, o: Options): Option<Options>
    decreases |s|
  {
    var t := SkipBlanks(s);
    if t == [] then Some(o)
    else if t[0] == '/' then
      match ParseOption(t[1..], o)
      case Stop => None
      case Go(rest, o') => ParseFrom(rest, o')
    else
      assert TokenLength(t) > 0;
      ParseFrom(t[TokenLength(t)..], o)
  }

  /** The test on lines 286-291. */
  predicate Accepted(o: Options)
  {
    (o.ui && o.pipe != "") || (!o.ui && o.pid != 0 && o.tid != 0)
  }

  // ----- the cursor-driven parser -----

  method ScanToken(start: string) returns (p: string, len: nat)
    ensures len == TokenLength(start) && p == start[len..]
  {
    p, len := start, 0;
    while p != [] && p[0] != ' ' && p[0] != '\t'
      invariant len <= |start| && p == start[len..] && TokenLength(start) == len + TokenLength(p)
      decreases |p|
    {
      p, len := p[1..], len + 1;
    }
  }

  method ScanQuoted(start: string) returns (p: string, len: nat)
    ensures len == QuotedLength(start) && p == start[len..]
  {
    p, len := start, 0;
    while p != [] && p[0] != '"'
      invariant len <= |start| && p == start[len..] && QuotedLength(start) == len + QuotedLength(p)
      decreases |p|
    {
      p, len := p[1..], len + 1;
    }
  }

  /** wcstoul and wcstoull: the value, and the end pointer. */
  method Number(p0: string, base: nat, max: nat) returns (v: nat, p: string)
    requires IsBase(base)
    ensures (v, p) == StrTo(p0, base, max)
  {
    var r := StrTo(p0, base, max);
    v, p := r.0, r.1;
  }

  /** Lines 211-277, with the cursor just after the slash; `None` if the process aborts. */
  method ParseOptionAt(p0: string, o0: Options) returns (p: string, o: Option<Options>)
    ensures match ParseOption(p0, o0)
            case Stop => o == None
            case Go(rest, o') => o == Some(o') && p == rest
  {
    p := p0;
    o := Some(o0);
    var v, len;
    match KeywordOf(p)
    case Ui =>
      o := Some(o0.(ui := true));
      p := p[2..];
    case Pid =>
      v, p := Number(p[4..], 10, ULONG_MAX);
      o := Some(o0.(pid := v));
    case Tid =>
      v, p := Number(p[4..], 10, ULONG_MAX);
      o := Some(o0.(tid := v));
    case Ep =>
      if |p| > 4 && p[3] == '0' && (p[4] == 'x' || p[4] == 'X') {
        v, p := Number(p[5..], 16, UINT64_MAX);
      } else {
        v, p := Number(p[3..], 16, UINT64_MAX);
      }
      o := Some(o0.(ep := v));
    case Name =>
      var start := p[5..];
      p, len := ScanToken(start);
      o := SetName(o0, Cut(start[..len], MAX_NAME));
    case Type =>
      v, p := Number(p[5..], 10, ULONG_MAX);
      o := Some(o0.(kind := if v > DUMP_FULL then DUMP_TRIAGE else v));
    case Pipe =>
      var start := p[5..];
      p, len := ScanToken(start);
      o := Some(o0.(pipe := Cut(start[..len], MAX_PIPE)));
    case Out =>
      if |p| > 4 && p[4] == '"' {
        var start := p[5..];
        p, len := ScanQuoted(start);
        o := Some(o0.(out := Cut(start[..len], MAX_DIR)));
        if p != [] { p := p[1..]; }
      } else {
        var start := p[4..];
        p, len := ScanToken(start);
        o := Some(o0.(out := Cut(start[..len], MAX_DIR)));
      }
    case Unknown =>
      p, len := ScanToken(p);
  }

  /** ParseCommandLine: the options and the returned verdict; `None` if the process aborts. */
  method ParseCommandLine(line: string, o0: Options) returns (o: Option<Options>, accepted: bool)
    ensures o == ParseFrom(line, o0)
    ensures o.Some? ==> (accepted <==> Accepted(o.value))
    ensures accepted <==> o.Some? && if o.value.ui then o.value.pipe != "" else o.value.pid != 0 && o.value.tid != 0
  {
    var p := line;
    var g := o0;
    while p != []
      invariant ParseFrom(p, g) == ParseFrom(line, o0)
      decreases |p|
    {
      ghost var from := p;
      while p != [] && (p[0] == ' ' || p[0] == '\t')
        invariant |p| <= |from| && SkipBlanks(p) == SkipBlanks(from)
        decreases |p|
      {
        p := p[1..];
      }
      if p == [] { break; }
      if p[0] == '/' {
        p, o := ParseOptionAt(p[1..], g);
        if o.None? { return None, false; }
        g := o.value;
      } else {
        var len;
        p, len := ScanToken(p);
      }
    }
    return Some(g), !(!g.ui && (g.pid == 0 || g.tid == 0)) && !(g.ui && g.pipe == "");
  }
}
