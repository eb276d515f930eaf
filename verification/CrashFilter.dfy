/**
 The crash filter of MiniDump/MiniDumpFilter.cpp: the globals that
 MiniDumpFilter_Init fills in and the exception handler prints. A null string
 argument is the empty string, which the source treats alike.
 */
module CrashFilter {
  import opened Common
  import opened CommandLine
  import opened CrashLine

  datatype Arguments = Arguments(dumper: string, name: string, kind: nat, out: string)

  const HELPER := "MiniDump.exe"

  /** The part of a path up to its last backslash, which is included. */
  function Folder(path: string): (f: string)
    ensures f <= path && (f != "" ==> f[|f| - 1] == '\\')
    ensures forall i :: |f| <= i < |path| ==> path[i] != '\\'
  {
    if path == "" then "" else if path[|path| - 1] == '\\' then path else Folder(path[..|path| - 1])
  }

  /** `None` if a copy into one of the fixed buffers would not fit, which ends the process. */
  function Fits(path: string): Option<string> { if |path| > MAX_DIR then None else Some(path) }

  datatype Outcome = Ready(c: Config) | Failed | Aborted

  /** What a first call stores; `self` is the running program's path, empty if it cannot be had. */
  function Configured(a: Arguments, self: string): Outcome
  {
    if Fits(a.out).None? then Aborted
    else if a.dumper == "" && self == "" then Failed
    else
      match Fits(if a.dumper != "" then a.dumper else Folder(self) + HELPER)
      case None => Aborted
      case Some(dumper) =>
        Ready(Config(dumper,
                     if a.name == "" then "Unknown" else Cut(a.name, MAX_NAME),
                     if a.kind > DUMP_FULL then DUMP_TRIAGE else a.kind,
                     a.out))
  }

  /**
   What a successful call stores: the given dumper, or MiniDump.exe in the folder of
   the running program; at most 63 characters of the name, or "Unknown"; the type,
   or 0 for one above 2; and the directory as it is. It fails only without a program
   path, and ends the process exactly if a path has more than 259 characters.
   */
  lemma ConfiguredExact(a: Arguments, self: string)
    ensures Configured(a, self) == Failed <==> |a.out| <= 259 && a.dumper == "" && self == ""
    ensures Configured(a, self) == Aborted <==>
            || |a.out| > 259 || |a.dumper| > 259
            || (a.dumper == "" && self != "" && |Folder(self)| + 12 > 259)
    ensures match Configured(a, self)
            case Failed => true
            case Aborted => true
            case Ready(c) =>
              && c.out == a.out && c.kind == (if a.kind == 1 || a.kind == 2 then a.kind else 0)
              && (a.name == "" ==> c.name == "Unknown") && (0 < |a.name| <= 63 ==> c.name == a.name)
              && (|a.name| > 63 ==> c.name == a.name[..63])
              && (a.dumper != "" ==> c.dumper == a.dumper)
              && (a.dumper == "" && (forall i :: 0 <= i < |self| ==> self[i] != '\\') ==> c.dumper == "MiniDump.exe")
              && forall i :: 0 <= i < |self| && self[i] == '\\' && (forall j :: i < j < |self| ==> self[j] != '\\') && a.dumper == "" ==>
                   c.dumper == self[..i + 1] + "MiniDump.exe"
  {
    var f := Folder(self);
    forall i | 0 <= i < |self| && self[i] == '\\' && (forall j :: i < j < |self| ==> self[j] != '\\')
      ensures f == self[..i + 1]
    {
      assert |f| > 0 ==> self[|f| - 1] == '\\';
    }
    if |f| > 0 { assert self[|f| - 1] == '\\'; }
  }

  /** Whatever the arguments, what is stored satisfies what the handler relies on. */
  lemma ConfiguredIsStored(a: Arguments, self: string)
    ensures var r := Configured(a, self); r.Ready? ==> Stored(r.c) && (NoQuote(a.dumper) && NoQuote(self) ==> NoQuote(r.c.dumper))
  {
    assert NoQuote(HELPER);
    assert NoQuote(self) ==> NoQuote(Folder(self));
  }

  /** The dump process knows the crash and the caller's own name, type and directory. */
  predicate Knows(r: Option<Options>, a: Arguments, x: Crash)
  {
    RecoveredBy(r, Config(a.dumper, a.name, a.kind, a.out), x)
  }

  /**
   What the caller passed to a successful initialisation reaches the dump
   process of any later crash exactly when the name is not empty, has no blank,
   fits its buffer and its version fits too, the type is a known one and the
   directory has no quote.
   */
  lemma ArgumentsReachHelper(a: Arguments, self: string, x: Crash)
    requires Configured(a, self).Ready? && ValidCrash(x) && NoQuote(a.dumper) && NoQuote(self)
    ensures Knows(Received(Configured(a, self).c, x), a, x) <==>
            && 0 < |a.name| <= MAX_NAME && NoBlank(a.name) && ShortVersion(a.name)
            && a.kind <= DUMP_FULL && NoQuote(a.out)
  {
    var c := Configured(a, self).c;
    ConfiguredIsStored(a, self);
    CrashLineExact(c, x);
    if Knows(Received(c, x), a, x) { KnownIsWellFormed(a, c, x); }
  }

  lemma KnownIsWellFormed(a: Arguments, c: Config, x: Crash)
    requires Stored(c) && ValidCrash(x) && NoQuote(c.dumper) && Knows(Received(c, x), a, x)
    requires a.out == c.out && (a.kind <= DUMP_FULL ==> a.kind == c.kind)
    requires c.name == if a.name == "" then "Unknown" else Cut(a.name, MAX_NAME)
    ensures 0 < |a.name| <= MAX_NAME && NoBlank(a.name) && ShortVersion(a.name) && a.kind <= DUMP_FULL && NoQuote(a.out)
  {
    ProgramSkipped(c.dumper, CrashArguments(c, x));
    DefaultsStorable();
    StaysStorable(CrashArguments(c, x), DEFAULTS);
    assert Storable(Received(c, x).value);
    CrashFrontRead(c, x);
    if !NoQuote(c.out) {
      QuoteLosesOut(c.kind, c.out, WithVersion(Numbers(x).(name := c.name), c.name));
    } else {
      CrashRoundTrip(c, x);
    }
  }

  // ----- the filter -----

  /** The process's top-level exception filter. */
  datatype Handler = Default | Ours | Other(id: nat)

  class Filter {
    var dumper: string
    var name: string
    var kind: nat
    var out: string
    var cleanup: nat
    var initialized: bool
    var top: Handler
    var previous: Handler

    function Settings(): Config
      reads this
    {
      Config(dumper, name, kind, out)
    }

    predicate Valid()
      reads this
    {
      initialized ==> Stored(Settings())
    }

    constructor (top: Handler)
      ensures Valid() && !initialized && this.top == top
    {
      dumper, name, kind, out := "", "Unknown", DUMP_TRIAGE, "";
      cleanup, initialized := 0, false;
      this.top, previous := top, Default;
    }

    /** MiniDumpFilter_Init; `None` if a copy ended the process. */
    method Init(a: Arguments, callback: nat, self: string) returns (r: Option<bool>)
      requires Valid()
      modifies this
      ensures Valid()
      ensures old(initialized) ==> r == Some(true) && unchanged(this)
      ensures !old(initialized) ==>
                match Configured(a, self)
                case Ready(c) =>
                  && r == Some(true) && initialized && Settings() == c && cleanup == callback
                  && top == Ours && previous == old(top)
                case Failed => r == Some(false) && !initialized && top == old(top) && previous == old(previous)
                case Aborted => r == None && !initialized && top == old(top)
    {
      if initialized { return Some(true); }
      kind := a.kind;
      if kind > DUMP_FULL { kind := DUMP_TRIAGE; }
      cleanup := callback;
      if a.out != "" {
        if |a.out| > MAX_DIR { return None; }
        out := a.out;
      } else {
        out := "";
      }
      if a.name != "" { name := Cut(a.name, MAX_NAME); } else { name := "Unknown"; }
      if a.dumper != "" {
        if |a.dumper| > MAX_DIR { return None; }
        dumper := a.dumper;
      } else {
        if self == "" { return Some(false); }
        dumper := self;
        if |Folder(self) + HELPER| > MAX_DIR { return None; }
        dumper := Folder(self) + HELPER;
      }
      top, previous := Ours, top;
      initialized := true;
      ConfiguredIsStored(a, self);
      return Some(true);
    }

    /** MiniDumpFilter_Shutdown: the earlier handler comes back, the settings stay. */
    method Shutdown()
      requires Valid()
      modifies this
      ensures Valid() && !initialized && Settings() == old(Settings()) && cleanup == old(cleanup)
      ensures top == if old(initialized) then old(previous) else old(top)
    {
      if !initialized { return; }
      top, previous, initialized := previous, Default, false;
    }
  }
}
