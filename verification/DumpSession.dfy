/**
 The ptrace dump session of TaskHelper/LinuxMain.cpp: an attach that outlives the
 request that made it and has to be released on every way out of the main loop.

 The kernel's side is the set of threads this helper is tracing. A detach may be
 refused (`refuses`, indexed by detach call); the thread then stays traced and is
 recorded in `stuck`, so the claims say exactly what is left behind.
 */
module DumpSession {
  import opened Common
  import opened Digits

  type Tid = int

  /** The conversion of a directory entry to pid_t on line 700: 64 bits cut to a signed 32. */
  function TidOf(name: string): Tid
  {
    var v := UIntOf(name, 0) % TWO32;
    if v >= TWO32 / 2 then v - TWO32 else v
  }

  predicate StartsWithDigit(name: string) { name != "" && '0' <= name[0] <= '9' }

  /** One directory entry and what ptrace and waitpid answer for it. */
  datatype Entry = Entry(name: string, seize: bool, interrupt: bool, wait: bool)

  datatype Request = DumpAttach(pid: nat, entries: seq<Entry>) | DumpDetach | Quit | OtherCommand

  datatype Reply = Invalid | Threads(threads: seq<(Tid, bool)>) | Acknowledged

  /** The threads a reply reports as attached. */
  function Reported(threads: seq<(Tid, bool)>): seq<Tid>
  {
    if threads == [] then []
    else Reported(threads[..|threads| - 1]) + if threads[|threads| - 1].1 then [threads[|threads| - 1].0] else []
  }

  predicate Answers(e: Entry) { e.seize && e.interrupt && e.wait }

  /** The entries of the thread directory that name a thread. */
  function Wanted(entries: seq<Entry>): seq<Entry>
  {
    if entries == [] then []
    else
      var e := entries[|entries| - 1];
      Wanted(entries[..|entries| - 1]) + if StartsWithDigit(e.name) then [e] else []
  }

  /**
   The reply if no detach is ever refused: every wanted thread in order, attached
   if it answers and no earlier entry attached it.
   */
  function Tried(wanted: seq<Entry>): seq<(Tid, bool)>
  {
    if wanted == [] then []
    else
      var e := wanted[|wanted| - 1];
      var before := Tried(wanted[..|wanted| - 1]);
      before + [(TidOf(e.name), Answers(e) && TidOf(e.name) !in Reported(before))]
  }

  /** Line `i` of a reply is right: its thread, marked exactly if it answers and no earlier line of the same thread is marked. */
  predicate RightLine(threads: seq<(Tid, bool)>, i: nat, e: Entry)
    requires i < |threads|
  {
    threads[i] == (TidOf(e.name), Answers(e) && !MarkedBefore(threads, i, TidOf(e.name)))
  }

  /** Every wanted thread is listed, on a right line. */
  lemma {:induction false} TriedExact(wanted: seq<Entry>)
    ensures |Tried(wanted)| == |wanted|
    ensures forall i :: 0 <= i < |wanted| ==> RightLine(Tried(wanted), i, wanted[i])
  {
    if wanted != [] {
      var n := |wanted| - 1;
      var before := wanted[..n];
      TriedExact(before);
      LastLineRight(Tried(before), wanted[n]);
      forall i | 0 <= i < n ensures RightLine(Tried(wanted), i, wanted[i]) {
        assert before[i] == wanted[i];
        StaysRight(Tried(before), Tried(wanted)[n], i, wanted[i]);
      }
    }
  }

  lemma LastLineRight(threads: seq<(Tid, bool)>, e: Entry)
    ensures var line := (TidOf(e.name), Answers(e) && TidOf(e.name) !in Reported(threads));
            RightLine(threads + [line], |threads|, e)
  {
    var line := (TidOf(e.name), Answers(e) && TidOf(e.name) !in Reported(threads));
    ReportedExact(threads, TidOf(e.name));
    MarkedSooner(threads, line, |threads|, TidOf(e.name));
  }

  lemma StaysRight(threads: seq<(Tid, bool)>, last: (Tid, bool), i: nat, e: Entry)
    requires i < |threads| && RightLine(threads, i, e)
    ensures RightLine(threads + [last], i, e)
  {
    MarkedSooner(threads, last, i, TidOf(e.name));
  }

  predicate MarkedBefore(threads: seq<(Tid, bool)>, i: nat, t: Tid)
  {
    exists j :: 0 <= j < i && j < |threads| && threads[j] == (t, true)
  }

  lemma MarkedSooner(threads: seq<(Tid, bool)>, last: (Tid, bool), i: nat, t: Tid)
    requires i <= |threads|
    ensures MarkedBefore(threads + [last], i, t) <==> MarkedBefore(threads, i, t)
  {
    if j :| 0 <= j < i && threads[j] == (t, true) { assert (threads + [last])[j] == (t, true); }
  }

  lemma {:induction false} ReportedExact(threads: seq<(Tid, bool)>, t: Tid)
    ensures t in Reported(threads) <==> MarkedBefore(threads, |threads|, t)
  {
    if threads != [] {
      var n := |threads| - 1;
      ReportedExact(threads[..n], t);
      if j :| 0 <= j < n && threads[j] == (t, true) { assert threads[..n][j] == (t, true); }
    }
  }

  /** The entries are taken in order, each exactly if its name starts with a digit. */
  lemma WantedExact(a: seq<Entry>, e: Entry)
    ensures Wanted([]) == []
    ensures Wanted(a + [e]) == Wanted(a) + if e.name != "" && '0' <= e.name[0] <= '9' then [e] else []
  {
    assert (a + [e])[..|a|] == a;
  }

  /** A name that is a positive thread id, as the directory prints it, means that thread. */
  lemma TidOfPrinted(t: nat)
    requires t < 0x8000_0000
    ensures TidOf(Print(t, 10)) == t && StartsWithDigit(Print(t, 10))
  {
    PrintedUInt(t);
  }

  /** The number in the name is cut to 32 bits and read as signed. */
  lemma TidExact(name: string)
    ensures -0x8000_0000 <= TidOf(name) < 0x8000_0000
    ensures (TidOf(name) - UIntOf(name, 0)) % 0x1_0000_0000 == 0
  {
    LowWord(UIntOf(name, 0), 0);
    LowWord(UIntOf(name, 0), 1);
  }

  lemma LowWord(v: nat, k: int)
    ensures (v % TWO32 - k * TWO32 - v) % TWO32 == 0
  {
    var q := v / TWO32;
    assert v % TWO32 - k * TWO32 - v == (-k - q) * TWO32;
  }

  lemma PrintedUInt(t: nat)
    requires t <= UINT64_MAX
    ensures UIntOf(Print(t, 10), 0) == t && '0' <= Print(t, 10)[0] <= '9'
  {
    assert Print(t, 10) + "" == Print(t, 10);
    ParseUndoesPrint(t, "", 0);
    assert IsDigit(Print(t, 10)[0], 10);
  }

  /** A reply has one line for each wanted entry, in order. */
  predicate Lists(threads: seq<(Tid, bool)>, wanted: seq<Entry>)
  {
    |threads| == |wanted| && forall i :: 0 <= i < |threads| ==> threads[i].0 == TidOf(wanted[i].name)
  }

  lemma WantedStep(entries: seq<Entry>, i: nat)
    requires i < |entries|
    ensures Wanted(entries[..i + 1]) ==
            if StartsWithDigit(entries[i].name) then Wanted(entries[..i]) + [entries[i]] else Wanted(entries[..i])
  {
    assert entries[..i + 1][..i] == entries[..i];
  }

  lemma TriedStep(wanted: seq<Entry>, e: Entry)
    ensures Tried(wanted + [e]) ==
            Tried(wanted) + [(TidOf(e.name), Answers(e) && TidOf(e.name) !in Reported(Tried(wanted)))]
  {
    assert (wanted + [e])[..|wanted|] == wanted;
  }

  lemma ReportedStep(threads: seq<(Tid, bool)>, t: Tid, marked: bool)
    ensures Reported(threads + [(t, marked)]) == Reported(threads) + if marked then [t] else []
  {
    assert (threads + [(t, marked)])[..|threads|] == threads;
  }

  /** The loop of DumpAttach after the wanted entries; `exact` says that no detach was refused. */
  predicate Matches(attached: seq<Tid>, threads: seq<(Tid, bool)>, wanted: seq<Entry>, exact: bool)
  {
    attached == Reported(threads) && Lists(threads, wanted) && (exact ==> threads == Tried(wanted))
  }

  lemma MatchesStep(attached: seq<Tid>, threads: seq<(Tid, bool)>, wanted: seq<Entry>, exact: bool, e: Entry, marked: bool)
    requires Matches(attached, threads, wanted, exact)
    requires exact ==> marked == (Answers(e) && TidOf(e.name) !in attached)
    ensures var t := TidOf(e.name);
            Matches(if marked then attached + [t] else attached, threads + [(t, marked)], wanted + [e], exact)
  {
    ReportedStep(threads, TidOf(e.name), marked);
    TriedStep(wanted, e);
  }

  /** One turn of the main loop: what poll and accept answered, and whether a signal arrived. */
  datatype Turn =
    | PollFailed(eintr: bool, signal: bool)
    | Idle(expired: bool, signal: bool)
    | AcceptFailed(signal: bool)
    | Connection(request: Option<Request>, signal: bool)

  /** The turns after which the loop ends. */
  predicate Ends(t: Turn)
  {
    || t.signal
    || (t.PollFailed? && !t.eintr)
    || (t.Idle? && t.expired)
    || (t.Connection? && t.request == Some(Quit))
  }

  /** The process of the last DumpAttach that named one. */
  function LastAttached(turns: seq<Turn>, before: nat): nat
  {
    if turns == [] then before
    else
      var t := turns[|turns| - 1];
      if t.Connection? && t.request.Some? && t.request.value.DumpAttach? && t.request.value.pid != 0
      then t.request.value.pid else LastAttached(turns[..|turns| - 1], before)
  }

  /** The commands that change the session: a dump attach that names a process, and a dump detach. */
  predicate DumpCommand(t: Turn)
  {
    t.Connection? && t.request.Some? && (t.request.value.DumpDetach? || (t.request.value.DumpAttach? && t.request.value.pid != 0))
  }

  /**
   What is attached after the turns: the threads that the last attach reported, if no
   detach followed it; with no dump command at all, what was attached before.
   */
  ghost predicate Held(turns: seq<Turn>, replies: seq<Reply>, before: seq<Tid>, attached: seq<Tid>)
  {
    && |replies| == |turns|
    && ((forall i :: 0 <= i < |turns| ==> !DumpCommand(turns[i])) ==> attached == before)
    && (forall i :: 0 <= i < |turns| && DumpCommand(turns[i]) && (forall j :: i < j < |turns| ==> !DumpCommand(turns[j])) ==>
          if turns[i].request.value.DumpDetach? then attached == []
          else replies[i].Threads? && attached == Reported(replies[i].threads))
  }

  /** Every attach that names a process is answered with what was tried. */
  ghost predicate Truthful(turns: seq<Turn>, replies: seq<Reply>)
  {
    forall i :: 0 <= i < |replies| && i < |turns| && DumpCommand(turns[i]) && turns[i].request.value.DumpAttach? ==>
      replies[i] == Threads(Tried(Wanted(turns[i].request.value.entries)))
  }

  lemma HeldStep(turns: seq<Turn>, replies: seq<Reply>, before: seq<Tid>, held: seq<Tid>, t: Turn, reply: Reply, now: seq<Tid>)
    requires Held(turns, replies, before, held)
    requires if !DumpCommand(t) then now == held
             else if t.request.value.DumpDetach? then now == [] else reply.Threads? && now == Reported(reply.threads)
    ensures Held(turns + [t], replies + [reply], before, now)
  {
    if !DumpCommand(t) {
      forall i | 0 <= i < |turns| && DumpCommand(turns[i]) && (forall j :: i < j < |turns + [t]| ==> !DumpCommand((turns + [t])[j]))
        ensures if turns[i].request.value.DumpDetach? then now == []
                else replies[i].Threads? && now == Reported(replies[i].threads)
      {
        assert forall j :: i < j < |turns| ==> (turns + [t])[j] == turns[j];
      }
      if forall i :: 0 <= i < |turns + [t]| ==> !DumpCommand((turns + [t])[i]) {
        assert forall i :: 0 <= i < |turns| ==> (turns + [t])[i] == turns[i];
      }
    } else {
      assert DumpCommand((turns + [t])[|turns|]);
    }
  }

  /** The loop came through the turns: none but the last can have stopped it, and the session is as they left it. */
  ghost predicate Came(turns: seq<Turn>, replies: seq<Reply>, running: bool, session0: nat, session: nat, before: seq<Tid>, attached: seq<Tid>)
  {
    && (forall i :: 0 <= i < |turns| - 1 ==> !Ends(turns[i]))
    && (turns != [] ==> (Ends(turns[|turns| - 1]) <==> !running))
    && (turns == [] ==> running)
    && session == LastAttached(turns, session0)
    && Held(turns, replies, before, attached)
  }

  lemma CameStep(turns: seq<Turn>, replies: seq<Reply>, t: Turn, reply: Reply, exits: bool, running: bool,
                 session0: nat, before: nat, session: nat, attached0: seq<Tid>, held: seq<Tid>, now: seq<Tid>)
    requires Came(turns, replies, true, session0, before, attached0, held)
    requires (exits || !running <==> Ends(t)) && session == LastAttached([t], before)
    requires if !DumpCommand(t) then now == held
             else if t.request.value.DumpDetach? then now == [] else reply.Threads? && now == Reported(reply.threads)
    ensures Came(turns + [t], replies + [reply], running && !exits, session0, session, attached0, now)
  {
    HeldStep(turns, replies, attached0, held, t, reply, now);
    assert (turns + [t])[..|turns|] == turns && [t][..0] == [];
  }

  lemma TruthfulStep(turns: seq<Turn>, replies: seq<Reply>, t: Turn, reply: Reply)
    requires |replies| == |turns| && Truthful(turns, replies)
    requires DumpCommand(t) && t.request.value.DumpAttach? ==> reply == Threads(Tried(Wanted(t.request.value.entries)))
    ensures Truthful(turns + [t], replies + [reply])
  {
  }

  /** The loop is left at a turn that ends it, or after the last one. */
  lemma CameOut(turns: seq<Turn>, i: nat, replies: seq<Reply>, running: bool, session0: nat, session: nat, before: seq<Tid>, attached: seq<Tid>)
    requires i <= |turns| && (running ==> i == |turns|) && Came(turns[..i], replies, running, session0, session, before, attached)
    ensures !running <==> exists j :: 0 <= j < |turns| && Ends(turns[j])
    ensures running ==> session == LastAttached(turns, session0) && Held(turns, replies, before, attached)
    ensures Truthful(turns[..i], replies) ==> Truthful(turns, replies)
  {
    if running { assert turns[..i] == turns; }
    SomeEnds(turns, i, running);
    if Truthful(turns[..i], replies) { TruthfulOut(turns, i, replies); }
  }

  lemma SomeEnds(turns: seq<Turn>, i: nat, running: bool)
    requires i <= |turns| && (running ==> i == |turns|)
    requires forall j :: 0 <= j < i - 1 ==> !Ends(turns[..i][j])
    requires if i > 0 then Ends(turns[..i][i - 1]) <==> !running else running
    ensures !running <==> exists j :: 0 <= j < |turns| && Ends(turns[j])
  {
    assert forall j :: 0 <= j < i ==> turns[..i][j] == turns[j];
    if !running { assert Ends(turns[i - 1]); }
  }

  lemma TruthfulOut(turns: seq<Turn>, i: nat, replies: seq<Reply>)
    requires i == |replies| <= |turns| && Truthful(turns[..i], replies)
    ensures Truthful(turns, replies)
  {
    assert forall j :: 0 <= j < i ==> turns[..i][j] == turns[j];
  }

  predicate Distinct(s: seq<Tid>) { forall i, j :: 0 <= i < j < |s| ==> s[i] != s[j] }

  ghost function Elements(s: seq<Tid>): set<Tid> { set t | t in s }

  // ----- the record of seizes and releases -----

  datatype Trace = Seized(t: Tid) | Released(t: Tid)

  /** The threads held after the log; `None` if one was seized while held or released while free. */
  ghost function Replay(log: seq<Trace>): Option<set<Tid>>
  {
    if log == [] then Some({})
    else
      match Replay(log[..|log| - 1])
      case None => None
      case Some(held) =>
        match log[|log| - 1]
        case Seized(t) => if t in held then None else Some(held + {t})
        case Released(t) => if t in held then Some(held - {t}) else None
  }

  lemma AppendTrace(log: seq<Trace>, e: Trace)
    ensures (log + [e])[..|log|] == log
  {
  }

  function Count(log: seq<Trace>, e: Trace): nat
  {
    if log == [] then 0 else Count(log[..|log| - 1], e) + if log[|log| - 1] == e then 1 else 0
  }

  /** In an explained log every thread was released as often as it was seized, less one if it is still held. */
  lemma {:induction false} ReplayCounts(log: seq<Trace>, t: Tid)
    requires Replay(log).Some?
    ensures Count(log, Seized(t)) == Count(log, Released(t)) + if t in Replay(log).value then 1 else 0
  {
    if log != [] { ReplayCounts(log[..|log| - 1], t); }
  }

  lemma SuffixElements(s: seq<Tid>, i: nat)
    requires Distinct(s) && i < |s|
    ensures Elements(s[i..]) == {s[i]} + Elements(s[i + 1..]) && s[i] !in Elements(s[i + 1..])
    ensures Elements(s[i + 1..]) <= Elements(s)
  {
    assert s[i..] == [s[i]] + s[i + 1..];
  }

  lemma AppendElement(s: seq<Tid>, t: Tid)
    requires Distinct(s) && t !in Elements(s)
    ensures Distinct(s + [t]) && Elements(s + [t]) == Elements(s) + {t}
  {
  }

  class Helper {
    var attached: seq<Tid>             // g_DumpAttached
    var running: bool                  // g_Running
    var tracees: set<Tid>              // what the kernel has us tracing
    var asked: seq<Tid>                // the threads passed to PTRACE_DETACH, in order
    ghost var session: nat             // the process of the current session
    ghost var stuck: set<Tid>          // tracees whose detach was refused
    ghost var log: seq<Trace>          // every successful seize and detach, in order
    const owner: Tid -> nat
    const refuses: nat -> bool

    constructor (owner: Tid -> nat, refuses: nat -> bool)
      ensures Valid() && running && attached == [] && tracees == {} && stuck == {} && session == 0
      ensures this.owner == owner && this.refuses == refuses
    {
      this.owner, this.refuses := owner, refuses;
      attached, running, tracees, asked := [], true, {}, [];
      session, stuck, log := 0, {}, [];
    }

    ghost predicate NeverRefuses() { forall n :: !refuses(n) }

    /** The log explains what is traced: every thread was released once per seize, or is still held. */
    ghost predicate Balanced()
      reads this
    {
      Replay(log) == Some(tracees)
    }

    ghost predicate Valid()
      reads this
    {
      && Distinct(attached) && Elements(attached) !! stuck && tracees == Elements(attached) + stuck
      && (forall t :: t in attached ==> owner(t) == session)
      && Balanced()
    }

    /** PTRACE_SEIZE: refused on a thread that already has a tracer. */
    method Seize(t: Tid, answer: bool) returns (ok: bool)
      requires Balanced()
      modifies this`tracees, this`log
      ensures ok == (answer && t !in old(tracees))
      ensures Balanced() && tracees == if ok then old(tracees) + {t} else old(tracees)
    {
      ok := answer && t !in tracees;
      if ok {
        tracees := tracees + {t};
        AppendTrace(log, Seized(t));
        log := log + [Seized(t)];
      }
    }

    /** PTRACE_DETACH: ends the trace unless refused. */
    method Detach(t: Tid)
      requires Balanced() && t in tracees
      modifies this`tracees, this`asked, this`stuck, this`log
      ensures Balanced() && asked == old(asked) + [t]
      ensures if refuses(|old(asked)|) then tracees == old(tracees) && stuck == old(stuck) + {t}
              else tracees == old(tracees) - {t} && stuck == old(stuck)
    {
      if refuses(|asked|) {
        stuck := stuck + {t};
      } else {
        tracees := tracees - {t};
        AppendTrace(log, Released(t));
        log := log + [Released(t)];
      }
      asked := asked + [t];
    }

    /** The loop of DumpDetachAll. */
    method DetachEach()
      requires Balanced() && Distinct(attached) && Elements(attached) !! stuck && tracees == Elements(attached) + stuck
      modifies this`tracees, this`asked, this`stuck, this`log
      ensures Balanced() && tracees == stuck && asked == old(asked) + attached
      ensures old(stuck) <= stuck <= old(stuck) + Elements(attached)
      ensures NeverRefuses() ==> stuck == old(stuck)
    {
      var i: nat := 0;
      ghost var rest := Elements(attached);
      assert attached[0..] == attached;
      while i < |attached|
        invariant i <= |attached| && Balanced() && rest == Elements(attached[i..])
        invariant tracees == rest + stuck && rest !! stuck && asked == old(asked) + attached[..i]
        invariant old(stuck) <= stuck <= old(stuck) + Elements(attached)
        invariant NeverRefuses() ==> stuck == old(stuck)
      {
        SuffixElements(attached, i);
        assert attached[..i] + [attached[i]] == attached[..i + 1];
        rest := rest - {attached[i]};
        Detach(attached[i]);
        i := i + 1;
      }
      assert attached[..|attached|] == attached;
    }

    /** DumpDetachAll, lines 667-673. */
    method DetachAll()
      requires Valid()
      modifies this`attached, this`tracees, this`asked, this`stuck, this`log
      ensures Valid() && attached == [] && tracees == stuck && asked == old(asked) + old(attached)
      ensures old(stuck) <= stuck <= old(stuck) + Elements(old(attached))
      ensures NeverRefuses() ==> stuck == old(stuck)
    {
      DetachEach();
      attached := [];
    }

    /** Lines 721-744: one thread of the target. */
    method AttachThread(e: Entry) returns (isAttached: bool)
      requires Valid() && owner(TidOf(e.name)) == session
      modifies this`attached, this`tracees, this`asked, this`stuck, this`log
      ensures Valid() && old(stuck) <= stuck && old(asked) <= asked
      ensures attached == if isAttached then old(attached) + [TidOf(e.name)] else old(attached)
      ensures isAttached == (Answers(e) && TidOf(e.name) !in old(tracees))
      ensures NeverRefuses() ==> stuck == old(stuck)
    {
      var t := TidOf(e.name);
      isAttached := false;
      ghost var before := attached;
      var seizedIt := Seize(t, e.seize);
      if seizedIt {
        if e.interrupt && e.wait {
          isAttached := true;
          AppendElement(before, t);
          attached := attached + [t];
          assert tracees == Elements(attached) + stuck;
        }
        if !isAttached {
          Detach(t);
          assert tracees == Elements(attached) + stuck;
        }
      }
    }

    /** Lines 699-768: the thread is tried and listed. */
    method TryEntry(e: Entry, threads0: seq<(Tid, bool)>, ghost wanted: seq<Entry>, ghost exact: bool)
      returns (threads: seq<(Tid, bool)>)
      requires Valid() && owner(TidOf(e.name)) == session
      requires Matches(attached, threads0, wanted, exact) && (exact ==> NeverRefuses() && stuck == {})
      modifies this`attached, this`tracees, this`asked, this`stuck, this`log
      ensures Valid() && old(stuck) <= stuck && old(asked) <= asked
      ensures NeverRefuses() ==> stuck == old(stuck)
      ensures Matches(attached, threads, wanted + [e], exact)
    {
      ghost var before := attached;
      var isAttached := AttachThread(e);
      MatchesStep(before, threads0, wanted, exact, e, isAttached);
      return threads0 + [(TidOf(e.name), isAttached)];
    }

    /** DumpAttach, lines 675-785. `entries` are the names readdir gives for the thread directory. */
    method Attach(pid: nat, entries: seq<Entry>) returns (r: Reply)
      requires Valid()
      requires forall i :: 0 <= i < |entries| && StartsWithDigit(entries[i].name) ==> owner(TidOf(entries[i].name)) == pid
      modifies this`attached, this`tracees, this`asked, this`session, this`stuck, this`log
      ensures Valid() && old(stuck) <= stuck
      ensures pid == 0 ==> r == Invalid && attached == old(attached) && tracees == old(tracees) && session == old(session)
      ensures pid == 0 ==> asked == old(asked) && log == old(log)
      ensures pid != 0 ==> session == pid && r.Threads? && attached == Reported(r.threads)
      ensures pid != 0 ==> old(asked) + old(attached) <= asked && Lists(r.threads, Wanted(entries))
      ensures pid != 0 && NeverRefuses() && old(stuck) == {} ==> r.threads == Tried(Wanted(entries))
      ensures NeverRefuses() ==> stuck == old(stuck)
    {
      if pid == 0 { return Invalid; }
      ghost var exact := NeverRefuses() && stuck == {};
      DetachAll();
      session := pid;
      var threads: seq<(Tid, bool)> := [];
      for i := 0 to |entries|
        invariant Valid() && session == pid && old(stuck) <= stuck && old(asked) + old(attached) <= asked
        invariant NeverRefuses() ==> stuck == old(stuck)
        invariant Matches(attached, threads, Wanted(entries[..i]), exact)
      {
        WantedStep(entries, i);
        if StartsWithDigit(entries[i].name) {
          threads := TryEntry(entries[i], threads, Wanted(entries[..i]), exact);
        }
      }
      assert entries[..|entries|] == entries;
      return Threads(threads);
    }

    /** The thread directory of a process lists its own threads only. */
    predicate Listed(t: Turn)
    {
      t.Connection? && t.request.Some? && t.request.value.DumpAttach? ==>
        var r := t.request.value;
        forall i :: 0 <= i < |r.entries| && StartsWithDigit(r.entries[i].name) ==> owner(TidOf(r.entries[i].name)) == r.pid
    }

    /** ServeConnection and ProcessCommand, as far as the session is concerned; only the two dump commands change it. */
    method Serve(r: Request) returns (reply: Reply)
      requires Valid() && Listed(Connection(Some(r), false))
      modifies this
      ensures Valid() && old(stuck) <= stuck
      ensures running == (old(running) && !r.Quit?)
      ensures session == if r.DumpAttach? && r.pid != 0 then r.pid else old(session)
      ensures r.DumpAttach? && r.pid != 0 ==>
                && reply.Threads? && attached == Reported(reply.threads) && Lists(reply.threads, Wanted(r.entries))
                && (NeverRefuses() && old(stuck) == {} ==> reply.threads == Tried(Wanted(r.entries)))
      ensures r.DumpDetach? ==> attached == []
      ensures r.Quit? || r.OtherCommand? || (r.DumpAttach? && r.pid == 0) ==>
                attached == old(attached) && tracees == old(tracees) && asked == old(asked) && log == old(log)
      ensures NeverRefuses() ==> stuck == old(stuck)
    {
      match r
      case DumpAttach(pid, entries) =>
        reply := Attach(pid, entries);
      case DumpDetach =>
        DetachAll();
        reply := Acknowledged;
      case Quit =>
        running := false;
        reply := Acknowledged;
      case OtherCommand =>
        reply := Acknowledged;
    }

    /**
     The main loop, lines 1050-1086, over a finite run of turns. `exited` tells
     whether the loop ended by itself, and `replies` what was answered in the turns
     that were run. Between turns the session stays as the last dump command left it.
     */
    method MainLoop(turns: seq<Turn>) returns (exited: bool, replies: seq<Reply>)
      requires Valid() && running && (forall i :: 0 <= i < |turns| ==> Listed(turns[i]))
      modifies this
      ensures exited <==> exists i :: 0 <= i < |turns| && Ends(turns[i])
      ensures Valid()
      ensures !exited ==> session == LastAttached(turns, old(session))
      ensures !exited ==> Held(turns, replies, old(attached), attached)
      ensures exited ==> attached == [] && tracees == stuck
      ensures NeverRefuses() && old(stuck) == {} ==> Truthful(turns, replies)
      ensures NeverRefuses() && old(stuck) == {} ==>
                stuck == {} && (exited ==> tracees == {} && Replay(log) == Some({}))
    {
      ghost var session0, before := session, attached;
      exited, replies := RunTurns(turns);
      CameOut(turns, |replies|, replies, running && !exited, session0, session, before, attached);
      if !running { exited := true; }
      if exited { DetachAll(); }
    }

    /** The turns up to the one that ends the loop. */
    method RunTurns(turns: seq<Turn>) returns (exited: bool, replies: seq<Reply>)
      requires Valid() && running && (forall i :: 0 <= i < |turns| ==> Listed(turns[i]))
      modifies this
      ensures Valid() && |replies| <= |turns| && (running && !exited ==> |replies| == |turns|)
      ensures Came(turns[..|replies|], replies, running && !exited, old(session), session, old(attached), attached)
      ensures NeverRefuses() && old(stuck) == {} ==> stuck == {} && Truthful(turns[..|replies|], replies)
    {
      exited, replies := false, [];
      ghost var session0, before := session, attached;
      ghost var exact := NeverRefuses() && stuck == {};
      while running && !exited && |replies| < |turns|
        invariant |replies| <= |turns| && Valid()
        invariant Came(turns[..|replies|], replies, running && !exited, session0, session, before, attached)
        invariant exact ==> NeverRefuses() && stuck == {} && Truthful(turns[..|replies|], replies)
        decreases |turns| - |replies|
      {
        var t := turns[|replies|];
        ghost var session1, held, done := session, attached, turns[..|replies|];
        assert turns[..|replies| + 1] == done + [t];
        var reply;
        exited, reply := OneTurn(t);
        CameStep(done, replies, t, reply, exited, running, session0, session1, session, before, held, attached);
        if exact { TruthfulStep(done, replies, t, reply); }
        replies := replies + [reply];
      }
    }

    /** One turn of the loop; `exits` tells whether it leaves the loop at once. */
    method OneTurn(t: Turn) returns (exits: bool, reply: Reply)
      requires Valid() && running && Listed(t)
      modifies this
      ensures Valid() && old(stuck) <= stuck
      ensures exits || !running <==> Ends(t)
      ensures exits ==> !t.Connection?
      ensures session == LastAttached([t], old(session))
      ensures if !DumpCommand(t) then attached == old(attached)
              else if t.request.value.DumpDetach? then attached == []
              else reply.Threads? && attached == Reported(reply.threads)
      ensures NeverRefuses() ==> stuck == old(stuck)
      ensures NeverRefuses() && old(stuck) == {} && DumpCommand(t) && t.request.value.DumpAttach? ==>
                reply == Threads(Tried(Wanted(t.request.value.entries)))
    {
      exits, reply := false, Acknowledged;
      assert [t][..0] == [];
      if t.signal { running := false; }
      match t
      case PollFailed(eintr, _) => exits := !eintr;
      case Idle(expired, _) => exits := expired;
      case AcceptFailed(_) =>
      case Connection(request, _) => if request.Some? { reply := Serve(request.value); }
    }
  }
}
