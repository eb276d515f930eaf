/**
 The asynchronous update preparation of UpdUtil/UpdServ.cpp as a step system: one
 request handler, and one background worker for every preparation started. Each
 access to a shared field is a step, so an event sequence is an arbitrary
 interleaving; an event that cannot happen leaves the state unchanged.
 */
module AsyncPrepare {
  import opened Common

  datatype FileState = Unmarked | Changed | Pending
  datatype File = File(path: string, url: string, hash: string, state: FileState)

  const UPD_ERROR_HASH: int := -3
  const UPD_ERROR_DOWNLOAD: int := -4

  datatype Holder = ByWorker | ByHandler

  /**
   Where a worker stands. `Working` carries the line it runs next, the position in
   the file map and the count so far; `Ending` runs the three-way common tail for
   the file it stopped at: 0 take the mutex, 1 error text, 2 result, 3 completed,
   4 active, 5 release.
   */
  datatype WorkerPc =
    | Working(line: nat, i: nat, ret: nat)
    | Storing(i: nat, ret: nat)
    | Ending(stage: nat, code: int, i: nat)
    | Gone

  /** What the download and the hash computation answer. */
  datatype Download = Unavailable | Unhashed | Fetched(data: seq<Byte>)

  /** SAsyncPrepare; `files0` and `answers` record what happened and are never read. */
  datatype Prep = Prep(
    active: bool, completed: bool, result: int, error: string, files: seq<File>, currentFile: string, mutex: Option<Holder>,
    pc: WorkerPc, files0: seq<File>, answers: map<nat, Download>)

  datatype Shown = Result(code: int, error: string) | Progress(path: string) | Nothing

  /** `reached` records how many files the worker had come to when the answer was read. */
  datatype Reply = Reply(id: nat, active: bool, completed: bool, shown: Shown, reached: nat)

  /** The handler between two steps; the numbers are lines of ProcessUpdaterCommand. */
  datatype HandlerPc =
    | Ready
    | Testing(files: seq<File>)
    | Creating(files: seq<File>)
    | Status(line: nat, id: nat, active: bool, completed: bool)

  datatype Request = Prepare(files: seq<File>) | GetStatus

  datatype State = State(
    digest: seq<Byte> -> string, preps: seq<Prep>, handler: HandlerPc, replies: seq<Reply>, refusals: nat)

  datatype Event = Ask(r: Request) | Handle | Work(id: nat, d: Download)

  function Init(digest: seq<Byte> -> string): State { State(digest, [], Ready, [], 0) }

  /** The global pointer is the last preparation created, if any. */
  function Current(s: State): nat
    requires s.preps != []
  {
    |s.preps| - 1
  }

  function Next(s: State, e: Event): State
  {
    match e
    case Ask(r) =>
      if !s.handler.Ready? then s
      else if r.Prepare? then s.(handler := Testing(r.files))
      else if s.preps == [] then s
      else s.(handler := Status(452, Current(s), false, false))
    case Handle => HandlerStep(s)
    case Work(id, d) =>
      if id >= |s.preps| then s else s.(preps := s.preps[id := WorkerStep(s.digest, s.preps[id], d)])
  }

  /** A new SAsyncPrepare, fully initialised before its worker starts (lines 400-409). */
  function Fresh(files: seq<File>): Prep
  {
    Prep(true, false, 0, "", files, "", None, Working(114, 0, 0), files, map[])
  }

  /** Lines 391-409 and 452-479. */
  function HandlerStep(s: State): State
  {
    match s.handler
    case Ready => s
    case Testing(files) =>
      if s.preps != [] && s.preps[Current(s)].active then s.(handler := Ready, refusals := s.refusals + 1)
      else s.(handler := Creating(files))
    case Creating(files) => s.(handler := Ready, preps := s.preps + [Fresh(files)])
    case Status(line, id, active, completed) =>
      if id >= |s.preps| then s else StatusStep(s, line, id, active, completed)
  }

  function StatusStep(s: State, line: nat, id: nat, active: bool, completed: bool): State
    requires id < |s.preps|
  {
    var p := s.preps[id];
    match line
    case 452 =>
      if p.mutex.Some? then s
      else s.(preps := s.preps[id := p.(mutex := Some(ByHandler))], handler := Status(456, id, active, completed))
    case 456 => s.(handler := Status(457, id, p.active, completed))
    case 457 => s.(handler := Status(459, id, active, p.completed))
    case 459 =>
      if p.completed then Answer(s, id, active, completed, FinalAnswer(p))
      else s.(handler := Status(473, id, active, completed))
    case 473 => Answer(s, id, active, completed, if p.active then Progress(p.currentFile) else Nothing)
    case 479 => s.(preps := s.preps[id := p.(mutex := None)], handler := Ready)
    case _ => s
  }

  function Answer(s: State, id: nat, active: bool, completed: bool, shown: Shown): State
    requires id < |s.preps|
  {
    s.(replies := s.replies + [Reply(id, active, completed, shown, Reached(s.preps[id]))], handler := Status(479, id, active, completed))
  }

  /** AsyncPrepareWorker, lines 111-173. */
  function WorkerStep(digest: seq<Byte> -> string, p: Prep, d: Download): Prep
  {
    match p.pc
    case Gone => p
    case Storing(i, ret) =>
      if i >= |p.files| then p
      else p.(files := p.files[i := p.files[i].(state := Pending)], pc := Working(114, i + 1, ret + 1))
    case Ending(stage, code, i) => EndStep(p, stage, code, i)
    case Working(line, i, ret) =>
      if i >= |p.files| then p.(pc := Ending(0, ret, |p.files|))
      else
        match line
        case 114 => p.(pc := if p.files[i].state != Changed then Working(114, i + 1, ret) else Working(120, i, ret))
        case 120 => if p.mutex.Some? then p else p.(mutex := Some(ByWorker), pc := Working(121, i, ret))
        case 121 => p.(currentFile := p.files[i].path, pc := Working(122, i, ret))
        case 122 => p.(mutex := None, pc := Working(130, i, ret))
        case 130 =>
          var pc :=
            match d
            case Unavailable => Ending(0, UPD_ERROR_DOWNLOAD, i)
            case Unhashed => Working(114, i + 1, ret)
            case Fetched(data) => if digest(data) == p.files[i].hash then Storing(i, ret) else Ending(0, UPD_ERROR_HASH, i);
          p.(answers := p.answers[i := d], pc := pc)
        case _ => p
  }

  function EndStep(p: Prep, stage: nat, code: int, i: nat): Prep
  {
    match stage
    case 0 => if p.mutex.Some? then p else p.(mutex := Some(ByWorker), pc := Ending(if code < 0 then 1 else 2, code, i))
    case 1 => if i >= |p.files| then p else p.(error := ErrorText(code, p.files[i].path), pc := Ending(2, code, i))
    case 2 => p.(result := code, pc := Ending(3, code, i))
    case 3 => p.(completed := true, pc := Ending(4, code, i))
    case 4 => p.(active := false, pc := Ending(5, code, i))
    case 5 => p.(mutex := None, pc := Gone)
    case _ => p
  }

  /** Lines 145 and 159. */
  function ErrorText(code: int, path: string): string
  {
    (if code == UPD_ERROR_HASH then "Hash mismatch: " else "Download failed: ") + path
  }

  /** How many files the worker has come to; it has stored the path of a changed one among them. */
  function Reached(p: Prep): nat
  {
    match p.pc
    case Working(line, i, _) => if line > 121 then i + 1 else i
    case Storing(i, _) => i + 1
    case Ending(_, code, i) => if code < 0 then i + 1 else i
    case Gone => 0
  }

  /** The path of the last changed file among the first `n`; empty if there is none. */
  function LastPath(files: seq<File>, n: nat): string
    requires n <= |files|
  {
    if n == 0 then "" else if files[n - 1].state == Changed then files[n - 1].path else LastPath(files, n - 1)
  }

  function Run(digest: seq<Byte> -> string, evs: seq<Event>): State
  {
    if evs == [] then Init(digest) else Next(Run(digest, evs[..|evs| - 1]), evs[|evs| - 1])
  }

  // ----- what the files say -----

  /** Files whose state differs from the one the scan left. */
  function Moved(files0: seq<File>, files: seq<File>): nat
    requires |files0| == |files|
  {
    if files == [] then 0
    else
      Moved(files0[..|files| - 1], files[..|files| - 1]) + if files0[|files| - 1] == files[|files| - 1] then 0 else 1
  }

  /** The download of file `f` answered with data that hashes to its manifest entry. */
  predicate Hashes(digest: seq<Byte> -> string, d: Download, f: File) { d.Fetched? && digest(d.data) == f.hash }

  /**
   A changed file was downloaded: with data that hashes to its manifest entry it is
   now pending, and if the hash could not be computed it is as it was. No other file
   is touched.
   */
  predicate Handled(digest: seq<Byte> -> string, p: Prep, j: nat)
    requires j < |p.files| == |p.files0|
  {
    if p.files0[j].state != Changed then p.files[j] == p.files0[j]
    else
      && j in p.answers
      && if p.answers[j].Unhashed? then p.files[j] == p.files0[j]
         else Hashes(digest, p.answers[j], p.files0[j]) && p.files[j] == p.files0[j].(state := Pending)
  }

  /** Everything before file `i` is handled, everything from there on untouched. */
  ghost predicate HandledUpTo(digest: seq<Byte> -> string, p: Prep, i: nat)
  {
    && |p.files| == |p.files0| && i <= |p.files|
    && (forall j :: i <= j < |p.files| ==> p.files[j] == p.files0[j])
    && (forall j :: 0 <= j < i ==> Handled(digest, p, j))
  }

  /** The changed file `i` ended the preparation: it could not be downloaded, or what was downloaded has another hash. */
  ghost predicate FailedAt(digest: seq<Byte> -> string, p: Prep, code: int, i: nat)
  {
    && HandledUpTo(digest, p, i) && i < |p.files0| && p.files0[i].state == Changed && i in p.answers
    && match p.answers[i]
       case Unavailable => code == -4
       case Unhashed => false
       case Fetched(data) => code == -3 && digest(data) != p.files0[i].hash
  }

  /** The text stored for it. */
  predicate Tells(p: Prep, code: int, i: nat)
    requires i < |p.files0|
  {
    p.error == (if code == -4 then "Download failed: " else "Hash mismatch: ") + p.files0[i].path
  }

  /** A final code is the number of files moved with every changed file handled, or tells why file `i` failed. */
  ghost predicate CodeOk(digest: seq<Byte> -> string, p: Prep, code: int, i: nat)
  {
    if code >= 0 then HandledUpTo(digest, p, |p.files|) && i == |p.files| && code == Moved(p.files0, p.files)
    else FailedAt(digest, p, code, i)
  }

  /** The same, once the error text is stored. */
  ghost predicate Concluded(digest: seq<Byte> -> string, p: Prep, code: int, i: nat)
  {
    CodeOk(digest, p, code, i) && (code < 0 ==> Tells(p, code, i))
  }

  // ----- the invariant -----

  /** The worker is at file `i`, and no file has failed. */
  ghost predicate AtFile(digest: seq<Byte> -> string, p: Prep, i: nat, ret: nat)
  {
    HandledUpTo(digest, p, i) && ret == Moved(p.files0, p.files)
  }

  ghost predicate WorkerOk(digest: seq<Byte> -> string, p: Prep)
  {
    match p.pc
    case Working(line, i, ret) =>
      && p.active && !p.completed && AtFile(digest, p, i, ret) && line in {114, 120, 121, 122, 130}
      && (line == 121 || line == 122 <==> p.mutex == Some(ByWorker))
      && (line > 114 ==> i < |p.files| && p.files[i].state == Changed)
    case Storing(i, ret) =>
      && p.active && !p.completed && AtFile(digest, p, i, ret) && p.mutex != Some(ByWorker)
      && i < |p.files| && p.files[i].state == Changed && i in p.answers && Hashes(digest, p.answers[i], p.files[i])
    case Ending(stage, code, i) =>
      && stage <= 5 && (stage == 1 ==> code < 0)
      && (if stage >= 2 then Concluded(digest, p, code, i) else CodeOk(digest, p, code, i))
      && (stage > 0 <==> p.mutex == Some(ByWorker))
      && p.active == (stage <= 4) && p.completed == (stage >= 4)
      && (stage >= 3 ==> p.result == code)
    case Gone =>
      && !p.active && p.completed && p.mutex != Some(ByWorker)
      && exists i: nat :: Concluded(digest, p, p.result, i)
  }

  /** While the worker is there, the path shown to a client is that of the last changed file it came to. */
  ghost predicate CurrentOk(p: Prep)
  {
    !p.pc.Gone? ==> Reached(p) <= |p.files0| && p.currentFile == LastPath(p.files0, Reached(p))
  }

  ghost predicate PrepOk(digest: seq<Byte> -> string, p: Prep)
  {
    |p.files| == |p.files0| && WorkerOk(digest, p) && CurrentOk(p)
  }

  ghost predicate HandlerOk(s: State)
  {
    match s.handler
    case Ready => true
    case Testing(files) => true
    case Creating(files) => forall id :: 0 <= id < |s.preps| ==> !s.preps[id].active
    case Status(line, id, active, completed) =>
      && id < |s.preps| && (line > 452 <==> s.preps[id].mutex == Some(ByHandler))
      && (line > 456 ==> active == s.preps[id].active)
      && (line > 457 ==> completed == s.preps[id].completed)
      && (line == 473 ==> !completed)
  }

  /** Lines 459-472. */
  function FinalAnswer(p: Prep): Shown { Result(p.result, if p.result < 0 then p.error else "") }

  ghost predicate ReplyOk(s: State, r: Reply)
  {
    && r.id < |s.preps| && r.active != r.completed
    && (r.completed ==>
          var p := s.preps[r.id];
          && p.completed && r.shown.Result? && r.shown.code == p.result
          && r.shown.error == if p.result < 0 then p.error else "")
    && (r.active ==> r.reached <= |s.preps[r.id].files0| && r.shown == Progress(LastPath(s.preps[r.id].files0, r.reached)))
  }

  ghost predicate Inv(s: State)
  {
    && (forall id :: 0 <= id < |s.preps| ==> PrepOk(s.digest, s.preps[id]))
    && (forall id :: 0 <= id < |s.preps| - 1 ==> !s.preps[id].active)
    && (forall id :: 0 <= id < |s.preps| && s.preps[id].mutex == Some(ByHandler) ==>
          s.handler.Status? && s.handler.id == id)
    && HandlerOk(s)
    && (forall i :: 0 <= i < |s.replies| ==> ReplyOk(s, s.replies[i]))
  }

  // ----- preservation -----

  lemma {:induction false} MovedStep(files0: seq<File>, files: seq<File>, i: nat, f: File)
    requires |files0| == |files| && i < |files| && files[i] == files0[i] && f != files0[i]
    ensures Moved(files0, files[i := f]) == Moved(files0, files) + 1
  {
    var n := |files| - 1;
    if i < n {
      assert files[i := f][..n] == files[..n][i := f];
      MovedStep(files0[..n], files[..n], i, f);
    } else {
      assert files[i := f][..n] == files[..n];
    }
  }

  lemma {:induction false} MovedNone(files: seq<File>)
    ensures Moved(files, files) == 0
  {
    if files != [] { MovedNone(files[..|files| - 1]); }
  }

  /** What a completed preparation keeps for good. */
  ghost predicate Settles(p: Prep, p': Prep)
  {
    && p'.files0 == p.files0
    && (!p.active ==> !p'.active)
    && (p.completed ==> p'.completed && p'.result == p.result && p'.files == p.files && p'.error == p.error && p'.answers == p.answers)
  }

  /** A worker step keeps its preparation in order and never disturbs a status request that holds the mutex. */
  ghost predicate StepOk(digest: seq<Byte> -> string, p: Prep, p': Prep)
  {
    && PrepOk(digest, p') && Settles(p, p')
    && (p.mutex == Some(ByHandler) <==> p'.mutex == Some(ByHandler))
    && (p.mutex == Some(ByHandler) ==> p'.active == p.active && p'.completed == p.completed)
  }

  lemma StorePreserves(digest: seq<Byte> -> string, p: Prep, d: Download)
    requires PrepOk(digest, p) && p.pc.Storing?
    ensures StepOk(digest, p, WorkerStep(digest, p, d))
  {
    var i, p' := p.pc.i, WorkerStep(digest, p, d);
    assert p'.files == p.files[i := p.files[i].(state := Pending)];
    MovedStep(p.files0, p.files, i, p.files[i].(state := Pending));
    forall j | 0 <= j <= i ensures Handled(digest, p', j) {
      if j < i { assert Handled(digest, p, j); }
    }
  }

  lemma EndPreserves(digest: seq<Byte> -> string, p: Prep, d: Download)
    requires PrepOk(digest, p) && p.pc.Ending?
    ensures StepOk(digest, p, WorkerStep(digest, p, d))
  {
    if p.pc.stage == 0 { EndLocks(digest, p, d); } else if p.pc.stage <= 2 { EndRecords(digest, p, d); } else { EndPublishes(digest, p, d); }
  }

  lemma EndLocks(digest: seq<Byte> -> string, p: Prep, d: Download)
    requires PrepOk(digest, p) && p.pc.Ending? && p.pc.stage == 0
    ensures StepOk(digest, p, WorkerStep(digest, p, d))
  {
    SameFiles(digest, p, WorkerStep(digest, p, d));
  }

  /** Stages 1 and 2: the error text and the result are stored. */
  lemma EndRecords(digest: seq<Byte> -> string, p: Prep, d: Download)
    requires PrepOk(digest, p) && p.pc.Ending? && 1 <= p.pc.stage <= 2
    ensures StepOk(digest, p, WorkerStep(digest, p, d))
  {
    SameFiles(digest, p, WorkerStep(digest, p, d));
  }

  /** Stages 3 to 5: the two flags change and the mutex is released. */
  lemma EndPublishes(digest: seq<Byte> -> string, p: Prep, d: Download)
    requires PrepOk(digest, p) && p.pc.Ending? && p.pc.stage > 2
    ensures StepOk(digest, p, WorkerStep(digest, p, d))
  {
    var p' := WorkerStep(digest, p, d);
    SameFiles(digest, p, p');
    assert Concluded(digest, p', p.pc.code, p.pc.i);
  }

  /** Steps that leave the files and the recorded answers alone. */
  lemma SameFiles(digest: seq<Byte> -> string, p: Prep, p': Prep)
    requires p'.files == p.files && p'.files0 == p.files0 && p'.answers == p.answers
    ensures forall i: nat :: HandledUpTo(digest, p, i) ==> HandledUpTo(digest, p', i)
    ensures forall i: nat, code :: FailedAt(digest, p, code, i) ==> FailedAt(digest, p', code, i)
  {
    forall i: nat | HandledUpTo(digest, p, i) ensures HandledUpTo(digest, p', i) {
      forall j | 0 <= j < i ensures Handled(digest, p', j) { assert Handled(digest, p, j); }
    }
  }

  lemma WorkPreserves(digest: seq<Byte> -> string, p: Prep, d: Download)
    requires PrepOk(digest, p) && p.pc.Working?
    ensures StepOk(digest, p, WorkerStep(digest, p, d))
  {
    if p.pc.i < |p.files| && p.pc.line == 130 { DownloadPreserves(digest, p, d); } else { WalkPreserves(digest, p, d); }
  }

  lemma WalkPreserves(digest: seq<Byte> -> string, p: Prep, d: Download)
    requires PrepOk(digest, p) && p.pc.Working? && (p.pc.line == 130 ==> p.pc.i >= |p.files|)
    ensures StepOk(digest, p, WorkerStep(digest, p, d))
  {
    if p.pc.line == 114 || p.pc.i >= |p.files| { VisitPreserves(digest, p, d); } else { NamePreserves(digest, p, d); }
  }

  /** The loop header and the test on line 114. */
  lemma VisitPreserves(digest: seq<Byte> -> string, p: Prep, d: Download)
    requires PrepOk(digest, p) && p.pc.Working? && (p.pc.line == 114 || p.pc.i >= |p.files|)
    ensures StepOk(digest, p, WorkerStep(digest, p, d))
  {
    SameFiles(digest, p, WorkerStep(digest, p, d));
  }

  /** Lines 120 to 122: the path is stored under the mutex. */
  lemma NamePreserves(digest: seq<Byte> -> string, p: Prep, d: Download)
    requires PrepOk(digest, p) && p.pc.Working? && p.pc.line != 114 && p.pc.line != 130 && p.pc.i < |p.files|
    ensures StepOk(digest, p, WorkerStep(digest, p, d))
  {
    SameFiles(digest, p, WorkerStep(digest, p, d));
  }

  lemma DownloadPreserves(digest: seq<Byte> -> string, p: Prep, d: Download)
    requires PrepOk(digest, p) && p.pc.Working? && p.pc.line == 130 && p.pc.i < |p.files|
    ensures StepOk(digest, p, WorkerStep(digest, p, d))
  {
    AnswerKept(digest, p, WorkerStep(digest, p, d), d);
  }

  /** One more answer, for the file the worker is at, leaves what is before it handled. */
  lemma AnswerKept(digest: seq<Byte> -> string, p: Prep, p': Prep, d: Download)
    requires p.pc.Working? && HandledUpTo(digest, p, p.pc.i)
    requires p'.files == p.files && p'.files0 == p.files0 && p'.answers == p.answers[p.pc.i := d]
    ensures HandledUpTo(digest, p', p.pc.i)
    ensures d.Unhashed? && p.pc.i < |p.files| ==> HandledUpTo(digest, p', p.pc.i + 1)
  {
    forall j | 0 <= j < p.pc.i ensures Handled(digest, p', j) { assert Handled(digest, p, j); }
  }

  lemma WorkerPreserves(digest: seq<Byte> -> string, p: Prep, d: Download)
    requires PrepOk(digest, p)
    ensures StepOk(digest, p, WorkerStep(digest, p, d))
  {
    match p.pc
    case Working(_, _, _) => WorkPreserves(digest, p, d);
    case Storing(_, _) => StorePreserves(digest, p, d);
    case Ending(_, _, _) => EndPreserves(digest, p, d);
    case Gone =>
  }

  /** Preparations are only added, and each keeps what it has settled. */
  ghost predicate Extends(s: State, s': State)
  {
    && |s.preps| <= |s'.preps|
    && forall id :: 0 <= id < |s.preps| ==> Settles(s.preps[id], s'.preps[id])
  }

  lemma RepliesKept(s: State, s': State)
    requires Extends(s, s') && forall i :: 0 <= i < |s.replies| ==> ReplyOk(s, s.replies[i])
    ensures forall i :: 0 <= i < |s.replies| ==> ReplyOk(s', s.replies[i])
  {
    forall i | 0 <= i < |s.replies| ensures ReplyOk(s', s.replies[i]) {
      assert ReplyOk(s, s.replies[i]) && Settles(s.preps[s.replies[i].id], s'.preps[s.replies[i].id]);
    }
  }

  /** Replacing one preparation by one in order that keeps what was settled. */
  lemma OnePrep(s: State, s': State, id: nat)
    requires Inv(s) && id < |s.preps| && s'.digest == s.digest && s'.replies == s.replies
    requires |s'.preps| == |s.preps| && s'.preps == s.preps[id := s'.preps[id]]
    requires PrepOk(s.digest, s'.preps[id]) && Settles(s.preps[id], s'.preps[id])
    ensures Extends(s, s')
    ensures forall i :: 0 <= i < |s'.preps| ==> PrepOk(s'.digest, s'.preps[i])
    ensures forall i :: 0 <= i < |s'.preps| - 1 ==> !s'.preps[i].active
    ensures forall i :: 0 <= i < |s'.replies| ==> ReplyOk(s', s'.replies[i])
  {
    RepliesKept(s, s');
  }

  lemma WorkKeepsInv(s: State, id: nat, d: Download)
    requires Inv(s) && id < |s.preps|
    ensures Inv(Next(s, Work(id, d))) && Extends(s, Next(s, Work(id, d)))
  {
    var s' := Next(s, Work(id, d));
    WorkerPreserves(s.digest, s.preps[id], d);
    OnePrep(s, s', id);
  }

  lemma CreateKeepsInv(s: State)
    requires Inv(s) && s.handler.Creating?
    ensures Inv(HandlerStep(s)) && Extends(s, HandlerStep(s))
  {
    MovedNone(s.handler.files);
    RepliesKept(s, HandlerStep(s));
  }

  /** Taking or releasing the mutex on behalf of the handler does not concern the worker. */
  lemma HandlerMutex(digest: seq<Byte> -> string, p: Prep, m: Option<Holder>)
    requires PrepOk(digest, p) && p.mutex != Some(ByWorker) && m != Some(ByWorker)
    ensures PrepOk(digest, p.(mutex := m)) && Settles(p, p.(mutex := m))
  {
    var p' := p.(mutex := m);
    SameFiles(digest, p, p');
    if p.pc.Gone? {
      var i: nat :| Concluded(digest, p, p.result, i);
      assert Concluded(digest, p', p.result, i);
    }
  }

  lemma StatusKeepsInv(s: State)
    requires Inv(s) && s.handler.Status?
    ensures Inv(HandlerStep(s)) && Extends(s, HandlerStep(s))
  {
    if s.handler.line == 452 || s.handler.line == 479 { LockKeepsInv(s); } else { ReadKeepsInv(s); }
  }

  /** Lines 452 and 479: the handler takes or releases the mutex. */
  lemma LockKeepsInv(s: State)
    requires Inv(s) && s.handler.Status? && (s.handler.line == 452 || s.handler.line == 479)
    ensures Inv(HandlerStep(s)) && Extends(s, HandlerStep(s))
  {
    var id := s.handler.id;
    if s.handler.line == 479 || s.preps[id].mutex.None? {
      HandlerMutex(s.digest, s.preps[id], HandlerStep(s).preps[id].mutex);
      OnePrep(s, HandlerStep(s), id);
    }
  }

  /** Lines 456 to 473: the handler reads one preparation and answers. */
  lemma ReadKeepsInv(s: State)
    requires Inv(s) && s.handler.Status? && s.handler.line != 452 && s.handler.line != 479
    ensures Inv(HandlerStep(s)) && Extends(s, HandlerStep(s))
  {
    var s' := HandlerStep(s);
    ReadsAgree(s, s.handler.id);
    RepliesKept(s, s');
    if s'.replies != s.replies {
      assert s'.replies == s.replies + [s'.replies[|s.replies|]];
    }
  }

  /** While the handler holds the mutex, exactly one of the two flags is set. */
  lemma ReadsAgree(s: State, id: nat)
    requires Inv(s) && id < |s.preps|
    ensures s.preps[id].mutex == Some(ByHandler) ==> s.preps[id].active != s.preps[id].completed
  {
    assert PrepOk(s.digest, s.preps[id]);
  }

  /** A step that only moves the handler to where nothing is held. */
  lemma SamePreps(s: State, s': State)
    requires Inv(s) && s'.preps == s.preps && s'.digest == s.digest && s'.replies == s.replies && HandlerOk(s')
    requires !s.handler.Status? || s' == s
    ensures Inv(s') && Extends(s, s')
  {
    RepliesKept(s, s');
  }

  lemma AskKeepsInv(s: State, r: Request)
    requires Inv(s)
    ensures Inv(Next(s, Ask(r))) && Extends(s, Next(s, Ask(r)))
  {
    SamePreps(s, Next(s, Ask(r)));
  }

  lemma HandleKeepsInv(s: State)
    requires Inv(s)
    ensures Inv(HandlerStep(s)) && Extends(s, HandlerStep(s))
  {
    match s.handler
    case Ready => SamePreps(s, s);
    case Testing(files) => SamePreps(s, HandlerStep(s));
    case Creating(files) => CreateKeepsInv(s);
    case Status(_, _, _, _) => StatusKeepsInv(s);
  }

  lemma NextKeepsInv(s: State, e: Event)
    requires Inv(s)
    ensures Inv(Next(s, e)) && Extends(s, Next(s, e))
  {
    match e
    case Ask(r) => AskKeepsInv(s, r);
    case Work(id, d) => if id < |s.preps| { WorkKeepsInv(s, id, d); }
    case Handle => HandleKeepsInv(s);
  }

  lemma {:induction false} Invariant(digest: seq<Byte> -> string, evs: seq<Event>)
    ensures Inv(Run(digest, evs)) && Run(digest, evs).digest == digest
  {
    if evs != [] {
      Invariant(digest, evs[..|evs| - 1]);
      NextKeepsInv(Run(digest, evs[..|evs| - 1]), evs[|evs| - 1]);
    }
  }
}
