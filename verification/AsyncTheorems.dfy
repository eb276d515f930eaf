/**
 What holds over every run of the update preparation: what a client is told, what
 a preparation did to the files, and that requests and workers get through.
 */
module AsyncTheorems {
  import opened Common
  import opened AsyncPrepare

  /** Of two preparations the earlier one is inactive and its worker has at most the release left to do. */
  lemma OneLiveWorker(digest: seq<Byte> -> string, evs: seq<Event>, i: nat, j: nat)
    requires i < j < |Run(digest, evs).preps|
    ensures var p := Run(digest, evs).preps[i];
            !p.active && p.completed && (p.pc.Gone? || (p.pc.Ending? && p.pc.stage == 5))
  {
    Invariant(digest, evs);
    assert PrepOk(digest, Run(digest, evs).preps[i]);
  }

  predicate NoneChanged(files: seq<File>, n: nat)
    requires n <= |files|
  {
    forall j :: 0 <= j < n ==> files[j].state != Changed
  }

  /** File `j` is the last changed one among the first `n`. */
  predicate IsLastChanged(files: seq<File>, n: nat, j: nat)
    requires n <= |files|
  {
    j < n && files[j].state == Changed && forall k :: j < k < n ==> files[k].state != Changed
  }

  lemma {:induction false} LastPathIs(files: seq<File>, n: nat)
    requires n <= |files|
    ensures NoneChanged(files, n) ==> LastPath(files, n) == ""
    ensures !NoneChanged(files, n) ==> exists j: nat :: IsLastChanged(files, n, j) && LastPath(files, n) == files[j].path
  {
    if n > 0 {
      LastPathIs(files, n - 1);
      if files[n - 1].state == Changed {
        assert IsLastChanged(files, n, n - 1);
      } else if j: nat :| IsLastChanged(files, n - 1, j) && LastPath(files, n - 1) == files[j].path {
        assert IsLastChanged(files, n, j);
      } else {
        assert NoneChanged(files, n - 1);
      }
    }
  }

  /** File `i` is the changed file whose download ended the preparation, and the text that reports it. */
  ghost predicate Blamed(digest: seq<Byte> -> string, p: Prep, i: nat, text: string)
  {
    && i < |p.files0| && FailedAt(digest, p, p.result, i)
    && text == (if p.answers[i].Unavailable? then "Download failed: " else "Hash mismatch: ") + p.files0[i].path
  }

  /**
   Every status reply shows exactly one of active and completed. Once completed it
   carries the final result, and a text exactly for an error: what went wrong and
   the path of the file. While active it carries the path of the last changed file
   the worker had come to, which is missing only if it had come to none.
   */
  lemma RepliesExact(digest: seq<Byte> -> string, evs: seq<Event>, k: nat)
    requires k < |Run(digest, evs).replies|
    ensures var s := Run(digest, evs); var r := s.replies[k];
            && r.id < |s.preps| && (r.active <==> !r.completed)
            && (r.completed ==>
                  var p := s.preps[r.id];
                  && p.completed && r.shown.Result? && r.shown.code == p.result
                  && (p.result >= 0 ==> r.shown.error == "")
                  && (p.result < 0 ==> exists i: nat :: Blamed(digest, p, i, r.shown.error)))
            && (r.active ==>
                  var files := s.preps[r.id].files0;
                  && r.reached <= |files|
                  && if NoneChanged(files, r.reached) then r.shown == Progress("")
                     else exists j: nat :: IsLastChanged(files, r.reached, j) && r.shown == Progress(files[j].path))
  {
    Invariant(digest, evs);
    var s := Run(digest, evs);
    var r := s.replies[k];
    assert ReplyOk(s, r);
    if r.active { LastPathIs(s.preps[r.id].files0, r.reached); } else { FinalText(digest, s.preps[r.id]); }
  }

  /** What a completed preparation has stored about a failure. */
  lemma FinalText(digest: seq<Byte> -> string, p: Prep)
    requires PrepOk(digest, p) && p.completed
    ensures p.result < 0 ==> exists i: nat :: Blamed(digest, p, i, p.error)
  {
    if p.result < 0 {
      if p.pc.Ending? {
        assert Blamed(digest, p, p.pc.i, p.error);
      } else {
        var i: nat :| Concluded(digest, p, p.result, i);
        assert Blamed(digest, p, i, p.error);
      }
    }
  }

  lemma {:induction false} RunExtends(digest: seq<Byte> -> string, evs: seq<Event>, n: nat)
    requires n <= |evs|
    ensures Extends(Run(digest, evs[..n]), Run(digest, evs))
  {
    if n == |evs| {
      assert evs[..n] == evs;
    } else {
      var init := evs[..|evs| - 1];
      assert init[..n] == evs[..n];
      RunExtends(digest, init, n);
      Invariant(digest, init);
      NextKeepsInv(Run(digest, init), evs[|evs| - 1]);
      SettlesTransitive(Run(digest, evs[..n]), Run(digest, init), Run(digest, evs));
    }
  }

  lemma SettlesTransitive(s: State, s': State, s'': State)
    requires Extends(s, s') && Extends(s', s'')
    ensures Extends(s, s'')
  {
    forall id | 0 <= id < |s.preps| ensures Settles(s.preps[id], s''.preps[id]) {
      assert Settles(s.preps[id], s'.preps[id]) && Settles(s'.preps[id], s''.preps[id]);
    }
  }

  /** Completion is permanent: the result and the file states never change afterwards. */
  lemma CompletionPermanent(digest: seq<Byte> -> string, evs: seq<Event>, n: nat, id: nat)
    requires n <= |evs| && id < |Run(digest, evs[..n]).preps| && Run(digest, evs[..n]).preps[id].completed
    ensures id < |Run(digest, evs).preps|
    ensures var p, p' := Run(digest, evs[..n]).preps[id], Run(digest, evs).preps[id];
            p'.completed && p'.result == p.result && p'.files == p.files
  {
    RunExtends(digest, evs, n);
    assert Settles(Run(digest, evs[..n]).preps[id], Run(digest, evs).preps[id]);
  }

  /** The files that ended up different from what the scan left. */
  ghost function Differing(files0: seq<File>, files: seq<File>): set<nat>
    requires |files0| == |files|
  {
    set j: nat | j < |files| && files[j] != files0[j]
  }

  lemma {:induction false} MovedIsCount(files0: seq<File>, files: seq<File>)
    requires |files0| == |files|
    ensures Moved(files0, files) == |Differing(files0, files)|
  {
    if files != [] {
      var n := |files| - 1;
      MovedIsCount(files0[..n], files[..n]);
      var before := Differing(files0[..n], files[..n]);
      assert Differing(files0, files) == if files[n] == files0[n] then before else before + {n};
    }
  }

  /**
   A completed preparation reports the exact number of files that went from changed
   to pending, or that one changed file could not be downloaded or had another hash.
   Every changed file, or with an error every one before the failing file, was
   downloaded; it was moved exactly if the data hashes to its manifest entry, and
   left alone if the hash could not be computed. Nothing else was touched.
   */
  lemma ResultExact(digest: seq<Byte> -> string, evs: seq<Event>, id: nat)
    requires id < |Run(digest, evs).preps| && Run(digest, evs).preps[id].completed
    ensures var p := Run(digest, evs).preps[id];
            && |p.files| == |p.files0|
            && (p.result < 0 ==> exists i: nat :: Blamed(digest, p, i, p.error))
            && (p.result >= 0 ==> p.result == |Differing(p.files0, p.files)| && HandledUpTo(digest, p, |p.files|))
  {
    Invariant(digest, evs);
    var p := Run(digest, evs).preps[id];
    assert PrepOk(digest, p);
    FinalText(digest, p);
    MovedIsCount(p.files0, p.files);
  }

  /** Event `n` of the run is the answer `d` to the download of file `i` by worker `id`. */
  ghost predicate Answered(digest: seq<Byte> -> string, evs: seq<Event>, n: nat, id: nat, i: nat, d: Download)
  {
    && n < |evs| && evs[n] == Work(id, d) && id < |Run(digest, evs[..n]).preps|
    && var pc := Run(digest, evs[..n]).preps[id].pc; pc.Working? && pc.line == 130 && pc.i == i
  }

  /** The recorded answers are those the downloads gave during the run. */
  lemma {:induction false} AnswersAreEvents(digest: seq<Byte> -> string, evs: seq<Event>, id: nat, i: nat)
    requires id < |Run(digest, evs).preps| && i in Run(digest, evs).preps[id].answers
    ensures exists n: nat :: Answered(digest, evs, n, id, i, Run(digest, evs).preps[id].answers[i])
  {
    if evs != [] {
      var last := |evs| - 1;
      var init := evs[..last];
      var d := Run(digest, evs).preps[id].answers[i];
      var s := Run(digest, init);
      if id < |s.preps| && i in s.preps[id].answers && s.preps[id].answers[i] == d {
        AnswersAreEvents(digest, init, id, i);
        var n: nat :| Answered(digest, init, n, id, i, d);
        assert evs[..n] == init[..n];
        assert Answered(digest, evs, n, id, i, d);
      } else {
        NewAnswer(s, evs[last], id, i);
        assert Answered(digest, evs, last, id, i, d);
      }
    }
  }

  /** Only the step on line 130 records an answer, and it records its own. */
  lemma NewAnswer(s: State, e: Event, id: nat, i: nat)
    requires var s' := Next(s, e); id < |s'.preps| && i in s'.preps[id].answers
    requires id < |s.preps| && i in s.preps[id].answers ==> s.preps[id].answers[i] != Next(s, e).preps[id].answers[i]
    ensures id < |s.preps| && e == Work(id, Next(s, e).preps[id].answers[i])
    ensures var pc := s.preps[id].pc; pc.Working? && pc.line == 130 && pc.i == i
  {
  }

  // ----- what a request does -----

  /** The state after more events. */
  function After(s: State, evs: seq<Event>): State
    decreases |evs|
  {
    if evs == [] then s else After(Next(s, evs[0]), evs[1..])
  }

  lemma {:induction false} AfterRun(digest: seq<Byte> -> string, evs: seq<Event>, more: seq<Event>)
    ensures Run(digest, evs + more) == After(Run(digest, evs), more)
    decreases |more|
  {
    if more == [] {
      assert evs + more == evs;
    } else {
      assert (evs + [more[0]])[..|evs|] == evs;
      assert evs + more == (evs + [more[0]]) + more[1..];
      AfterRun(digest, evs + [more[0]], more[1..]);
    }
  }

  lemma AfterOne(s: State, e: Event, more: seq<Event>)
    ensures After(s, [e] + more) == After(Next(s, e), more)
  {
    assert ([e] + more)[1..] == more;
  }

  /** A request to prepare is refused while the last preparation is active, and otherwise starts a new one. */
  lemma PrepareStarts(digest: seq<Byte> -> string, evs: seq<Event>, files: seq<File>)
    requires Run(digest, evs).handler.Ready?
    ensures var s, s' := Run(digest, evs), Run(digest, evs + [Ask(Prepare(files)), Handle, Handle]);
            && s'.handler.Ready? && s'.replies == s.replies
            && if s.preps != [] && s.preps[|s.preps| - 1].active then s'.preps == s.preps && s'.refusals == s.refusals + 1
               else
                 && |s'.preps| == |s.preps| + 1 && s'.preps[..|s.preps|] == s.preps && s'.refusals == s.refusals
                 && var p := s'.preps[|s.preps|];
                    p.active && !p.completed && p.files == files && p.files0 == files && p.answers == map[]
                    && p.result == 0 && p.error == "" && p.currentFile == ""
  {
    var more := [Ask(Prepare(files)), Handle, Handle];
    AfterRun(digest, evs, more);
    var s := Run(digest, evs);
    AfterOne(s, more[0], [Handle, Handle]);
    AfterOne(Next(s, more[0]), Handle, [Handle]);
    AfterOne(Next(Next(s, more[0]), Handle), Handle, []);
    assert more == [more[0]] + [Handle, Handle] && [Handle, Handle] == [Handle] + [Handle] && [Handle] == [Handle] + [];
  }

  /** Asking for the status: up to six steps of the handler. */
  function StatusRequest(): seq<Event> { [Ask(GetStatus), Handle, Handle, Handle, Handle, Handle, Handle] }

  /**
   A status request that is not disturbed adds one reply: the two flags, then the
   result and the error text of a completed preparation, or for one that waits for a
   download the path of the file.
   */
  lemma StatusAnswers(digest: seq<Byte> -> string, evs: seq<Event>)
    requires var s := Run(digest, evs); s.handler.Ready? && s.preps != [] && s.preps[|s.preps| - 1].mutex.None?
    ensures var s, s' := Run(digest, evs), Run(digest, evs + StatusRequest()); var p := s.preps[|s.preps| - 1];
            && s'.preps == s.preps && s'.handler.Ready? && |s'.replies| == |s.replies| + 1 && s'.replies[..|s.replies|] == s.replies
            && var r := s'.replies[|s.replies|];
               && r.id == |s.preps| - 1 && r.active == p.active && r.completed == p.completed
               && (p.completed ==> r.shown == Result(p.result, if p.result < 0 then p.error else ""))
               && (p.pc.Working? && p.pc.line == 130 ==>
                     r.active && p.pc.i < |p.files0| && p.files0[p.pc.i].state == Changed && r.shown == Progress(p.files0[p.pc.i].path))
  {
    AfterRun(digest, evs, StatusRequest());
    SixSteps(Run(digest, evs));
    FreePrep(digest, evs);
    Undisturbed(Run(digest, evs));
  }

  /** What holds of a preparation whose mutex is free. */
  lemma FreePrep(digest: seq<Byte> -> string, evs: seq<Event>)
    requires Run(digest, evs).preps != [] && Run(digest, evs).preps[|Run(digest, evs).preps| - 1].mutex.None?
    ensures var p := Run(digest, evs).preps[|Run(digest, evs).preps| - 1];
            && p.active != p.completed
            && (p.pc.Working? && p.pc.line == 130 ==>
                  && p.active && p.pc.i < |p.files0| && p.files0[p.pc.i].state == Changed
                  && p.currentFile == p.files0[p.pc.i].path)
  {
    Invariant(digest, evs);
    var p := Run(digest, evs).preps[|Run(digest, evs).preps| - 1];
    assert PrepOk(digest, p);
    if p.pc.Working? && p.pc.line == 130 { assert p.files[p.pc.i] == p.files0[p.pc.i]; }
  }

  /** The handler runs from the request to the release of the mutex. */
  lemma Undisturbed(s: State)
    requires s.handler.Ready? && s.preps != [] && s.preps[|s.preps| - 1].mutex.None?
    requires s.preps[|s.preps| - 1].active != s.preps[|s.preps| - 1].completed
    ensures var id := |s.preps| - 1; var p := s.preps[id];
            Next(Next(Next(Next(Next(Next(Next(s, Ask(GetStatus)), Handle), Handle), Handle), Handle), Handle), Handle) ==
            s.(replies := s.replies + [Reply(id, p.active, p.completed,
                 if p.completed then FinalAnswer(p) else Progress(p.currentFile), Reached(p))])
  {
    var id := |s.preps| - 1;
    var p := s.preps[id];
    var held := s.preps[id := p.(mutex := Some(ByHandler))];
    var s3 := Next(Next(Next(Next(s, Ask(GetStatus)), Handle), Handle), Handle);
    assert s3 == s.(preps := held, handler := Status(459, id, p.active, p.completed));
    assert held[id := held[id].(mutex := None)] == s.preps;
  }

  lemma SixSteps(s: State)
    ensures After(s, StatusRequest()) == Next(Next(Next(Next(Next(Next(Next(s, Ask(GetStatus)), Handle), Handle), Handle), Handle), Handle), Handle)
  {
    var s1 := Next(s, Ask(GetStatus));
    var h2, h3, h4, h5 := [Handle, Handle], [Handle, Handle, Handle], [Handle, Handle, Handle, Handle], [Handle, Handle, Handle, Handle, Handle];
    assert StatusRequest() == [Ask(GetStatus)] + ([Handle] + h5) && h5 == [Handle] + h4 && h4 == [Handle] + h3
           && h3 == [Handle] + h2 && h2 == [Handle] + ([Handle] + []);
    AfterOne(s, Ask(GetStatus), [Handle] + h5);
    var s2 := Next(s1, Handle);
    AfterOne(s1, Handle, h5);
    var s3 := Next(s2, Handle);
    AfterOne(s2, Handle, h4);
    var s4 := Next(s3, Handle);
    AfterOne(s3, Handle, h3);
    var s5 := Next(s4, Handle);
    AfterOne(s4, Handle, h2);
    AfterOne(s5, Handle, [Handle] + []);
    AfterOne(Next(s5, Handle), Handle, []);
  }

  // ----- every worker gets through -----

  /** How many steps the worker has left at most, if the mutex is free when it needs it. */
  function StepsLeft(p: Prep): nat
  {
    match p.pc
    case Working(line, i, _) =>
      10 + 8 * (if i < |p.files| then |p.files| - i else 0)
      - (if line == 114 then 0 else if line == 120 then 1 else if line == 121 then 2 else if line == 122 then 3 else 4)
    case Storing(i, _) => 5 + 8 * (if i < |p.files| then |p.files| - i else 0)
    case Ending(stage, _, _) => if stage < 6 then 6 - stage else 1
    case Gone => 0
  }

  lemma StepProgress(digest: seq<Byte> -> string, p: Prep, d: Download)
    requires PrepOk(digest, p) && !p.pc.Gone? && p.mutex != Some(ByHandler)
    ensures StepsLeft(WorkerStep(digest, p, d)) < StepsLeft(p)
  {
    if p.mutex.Some? { assert p.mutex.value.ByWorker?; }
    match p.pc
    case Working(line, i, ret) => assert i <= |p.files|;
    case Storing(i, ret) => assert i < |p.files|;
    case Ending(stage, code, i) => if stage == 1 { assert FailedAt(digest, p, code, i); }
  }

  lemma OwnAnswer(digest: seq<Byte> -> string, p: Prep, d: Download, ans: nat -> Download)
    requires forall i :: i in p.answers ==> p.answers[i] == ans(i)
    requires d == ans(if p.pc.Working? then p.pc.i else 0)
    ensures var p' := WorkerStep(digest, p, d); forall i :: i in p'.answers ==> p'.answers[i] == ans(i)
  {
  }

  /** With the handler idle, a worker that runs alone completes, whatever its downloads answer. */
  lemma {:induction false} RunsToCompletion(digest: seq<Byte> -> string, evs: seq<Event>, id: nat, ans: nat -> Download)
    returns (more: seq<Event>)
    requires Run(digest, evs).handler.Ready? && id < |Run(digest, evs).preps|
    requires forall i :: i in Run(digest, evs).preps[id].answers ==> Run(digest, evs).preps[id].answers[i] == ans(i)
    ensures var s, s' := Run(digest, evs), Run(digest, evs + more);
            && |s'.preps| == |s.preps| && s'.preps[id].completed && !s'.preps[id].active && s'.preps[id].pc.Gone?
            && s'.preps[id].files0 == s.preps[id].files0
            && forall i :: i in s'.preps[id].answers ==> s'.preps[id].answers[i] == ans(i)
    decreases StepsLeft(Run(digest, evs).preps[id])
  {
    if Run(digest, evs).preps[id].pc.Gone? {
      GoneIsDone(digest, evs, id);
      more := [];
      assert evs + [] == evs;
    } else {
      var e := OwnStep(digest, evs, id, ans);
      var rest := RunsToCompletion(digest, evs + [e], id, ans);
      more := [e] + rest;
      Regrouped(digest, evs, e, rest);
    }
  }

  lemma Regrouped(digest: seq<Byte> -> string, evs: seq<Event>, e: Event, rest: seq<Event>)
    ensures Run(digest, evs + ([e] + rest)) == Run(digest, (evs + [e]) + rest)
  {
    assert evs + ([e] + rest) == (evs + [e]) + rest;
  }

  lemma GoneIsDone(digest: seq<Byte> -> string, evs: seq<Event>, id: nat)
    requires id < |Run(digest, evs).preps| && Run(digest, evs).preps[id].pc.Gone?
    ensures Run(digest, evs).preps[id].completed && !Run(digest, evs).preps[id].active
  {
    Invariant(digest, evs);
    assert PrepOk(digest, Run(digest, evs).preps[id]);
  }

  lemma OwnStep(digest: seq<Byte> -> string, evs: seq<Event>, id: nat, ans: nat -> Download) returns (e: Event)
    requires Run(digest, evs).handler.Ready? && id < |Run(digest, evs).preps| && !Run(digest, evs).preps[id].pc.Gone?
    requires forall i :: i in Run(digest, evs).preps[id].answers ==> Run(digest, evs).preps[id].answers[i] == ans(i)
    ensures var s, s' := Run(digest, evs), Run(digest, evs + [e]);
            && s'.handler.Ready? && |s'.preps| == |s.preps| && s'.preps[id].files0 == s.preps[id].files0
            && StepsLeft(s'.preps[id]) < StepsLeft(s.preps[id])
            && forall i :: i in s'.preps[id].answers ==> s'.preps[id].answers[i] == ans(i)
  {
    var s := Run(digest, evs);
    var p := s.preps[id];
    Invariant(digest, evs);
    assert PrepOk(digest, p);
    var d := ans(if p.pc.Working? then p.pc.i else 0);
    e := Work(id, d);
    assert (evs + [e])[..|evs|] == evs;
    assert Run(digest, evs + [e]) == s.(preps := s.preps[id := WorkerStep(digest, p, d)]);
    StepProgress(digest, p, d);
    OwnAnswer(digest, p, d, ans);
    WorkerPreserves(digest, p, d);
  }
}
