/** The invariant of the verification and key protocol, and its preservation by every step. */
module ClientInvariant {
  import opened Common
  import opened ClientProtocol

  predicate GoodKey(k: nat) { KEY_BIT <= k <= KEY_BIT + RANDOM_MAX }

  predicate GoodPair(k1: nat, k2: nat) { GoodKey(k1) && GoodKey(k2) && k1 != k2 }

  // ----- provenance of the Verified fields -----

  predicate Matches(c: Client, q: Query)
  {
    c.process == q.process && c.pid == q.pid && c.base == q.base && c.size == q.size
  }

  ghost predicate ProcessFrom(h: History, x: nat) { exists q :: q in h.entered && Passes(q) && q.process == x }
  ghost predicate PidFrom(h: History, x: nat) { exists q :: q in h.entered && Passes(q) && q.pid == x }
  ghost predicate BaseFrom(h: History, x: nat) { exists q :: q in h.entered && Passes(q) && q.base == x }
  ghost predicate SizeFrom(h: History, x: nat) { exists q :: q in h.entered && Passes(q) && q.size == x }

  ghost predicate SeenFrom(h: History, seen: Seen)
  {
    && ProcessFrom(h, seen.process) && PidFrom(h, seen.pid) && BaseFrom(h, seen.low)
    && BaseFrom(h, seen.highBase) && SizeFrom(h, seen.highSize)
  }

  /** The tests a retrieval has passed once it reaches line 429. */
  predicate Admitted(r: Request, seen: Seen)
  {
    && r.process == seen.process && r.pid == seen.pid && r.routine != 0
    && seen.low <= r.routine < RangeEnd(seen.highBase, seen.highSize)
  }

  /** All four fields were written by one successful verification. */
  ghost predicate FromOne(s: State)
  {
    exists q :: q in s.h.entered && Passes(q) && Matches(s.c, q)
  }

  // ----- what each thread knows: facts that no other thread can take away -----

  predicate ValidationOk(s: State, v: Validation)
  {
    v.granted ==> s.c.keysGenerated && (v.key == s.c.l1 || v.key == s.c.l2)
  }

  ghost predicate LocalOk(s: State, pc: Pc)
  {
    match pc
    case Idle => true
    case Verifying(line, q) =>
      && SystemAnswer(q)
      && (line > 258 ==> q in s.h.entered)
      && (301 < line < 311 ==> Passes(q))
    case Retrieving(line, r, seen) =>
      && (line > 408 ==> s.h.published)
      && (line > 413 ==> r.process == seen.process && ProcessFrom(s.h, seen.process))
      && (line > 414 ==> r.pid == seen.pid && r.routine != 0 && PidFrom(s.h, seen.pid))
      && (line > 423 ==> seen.low <= r.routine && BaseFrom(s.h, seen.low))
      && (line > 424 ==> BaseFrom(s.h, seen.highBase))
      && (line > 425 ==> s.c.keysGenerated && Admitted(r, seen) && SeenFrom(s.h, seen))
    case Generating(line, r, seen, k1, k2) =>
      && s.h.published && Admitted(r, seen) && SeenFrom(s.h, seen)
      && (line > 378 ==> GoodKey(k1))
      && (line > 381 ==> GoodPair(k1, k2))
      && (line > 391 ==> s.c.keysGenerated)
    case Validating(line, v) =>
      && ValidationOk(s, v)
      && (line > 457 ==> Ordinary(v))
      && (line > 466 ==> s.c.keysGenerated)
      && (line == 472 ==> v.level == 1)
      && (line == 473 ==> v.level == 1 && v.key != s.c.l1)
      && (line > 473 ==> v.level == 2)
  }

  predicate Ordinary(v: Validation) { !v.kernelMode && v.key != NO_SECURITY_KEY }

  // ----- what the mutex protects -----

  predicate Consistent(c: Client) { c.performed ==> c.succeeded == NtSuccess(c.status) }

  ghost predicate Settled(s: State)
  {
    Consistent(s.c) && (s.c.succeeded ==> FromOne(s))
  }

  ghost predicate Held(s: State, pc: Pc)
  {
    var c := s.c;
    match pc
    case Verifying(line, q) =>
      && line > 301
      && (line <= 311 ==> Consistent(c))
      && (306 <= line <= 308 ==> c.process == q.process)
      && (307 <= line <= 308 ==> c.pid == q.pid)
      && (line == 308 ==> c.base == q.base)
      && (line > 308 && Passes(q) ==> Matches(c, q))
      && (line > 311 ==> c.status == VerifyStatus(q))
      && (line > 313 ==> c.succeeded == Passes(q))
      && (line > 314 ==> c.performed)
    case Generating(line, r, seen, k1, k2) =>
      && line > 384 && Settled(s)
      && (386 < line < 394 ==> !c.keysGenerated)
      && (388 < line < 394 ==> c.l1 == k1)
      && (389 < line < 394 ==> c.l2 == k2)
    case _ => false
  }

  /** The positions that hold StateMutex. */
  predicate Critical(pc: Pc)
  {
    match pc
    case Verifying(line, q) => line > 301
    case Generating(line, r, seen, k1, k2) => line > 384
    case _ => false
  }

  ghost predicate MutexOk(s: State)
  {
    && (forall t: Tid :: Critical(At(s, t)) ==> s.mutex == Some(t))
    && (match s.mutex
        case None => Settled(s)
        case Some(t) => Held(s, At(s, t)))
  }

  // ----- the shared state and the history -----

  ghost predicate SharedOk(s: State)
  {
    && (s.c.keysGenerated ==> GoodPair(s.c.l1, s.c.l2))
    && (s.c.succeeded ==> s.h.published)
    && (s.h.published ==> ProcessFrom(s.h, s.c.process) && PidFrom(s.h, s.c.pid)
                          && BaseFrom(s.h, s.c.base) && SizeFrom(s.h, s.c.size))
    && (forall q :: q in s.h.entered ==> SystemAnswer(q))
  }

  ghost predicate GrantOk(s: State, g: Grant)
  {
    && s.c.keysGenerated && Admitted(g.request, g.seen) && SeenFrom(s.h, g.seen)
    && ((g.request.level == 1 && g.key == s.c.l1) || (g.request.level == 2 && g.key == s.c.l2))
  }

  /** The answers of KphValidateKey; generated keys never change, so they are those of the client. */
  predicate CheckOk(s: State, k: Check)
  {
    var v := k.v;
    && ValidationOk(s, v) && (k.sawGenerated ==> s.c.keysGenerated)
    && (k.ok <==> !Ordinary(v) || (k.sawSucceeded && k.sawGenerated && Opens(s.c, v)))
    && (v.granted && k.sawSucceeded ==> k.sawGenerated)
  }

  /** The key is good enough for the level. */
  predicate Opens(c: Client, v: Validation)
  {
    (v.level == 2 && v.key == c.l2) || (v.level == 1 && (v.key == c.l1 || v.key == c.l2))
  }

  ghost predicate HistoryOk(s: State)
  {
    && (forall i :: 0 <= i < |s.h.grants| ==> GrantOk(s, s.h.grants[i]))
    && (forall i :: 0 <= i < |s.h.checks| ==> CheckOk(s, s.h.checks[i]))
  }

  ghost predicate Inv(s: State)
  {
    && SharedOk(s) && MutexOk(s) && HistoryOk(s)
    && (forall t: Tid :: LocalOk(s, At(s, t)))
  }

  // ----- preservation -----

  /** What only ever grows; every thread-local fact and every history fact survives it. */
  ghost predicate Grows(s: State, s': State)
  {
    && (s.c.keysGenerated ==> s'.c.keysGenerated && s'.c.l1 == s.c.l1 && s'.c.l2 == s.c.l2)
    && s.h.entered <= s'.h.entered
    && (s.h.published ==> s'.h.published)
  }

  lemma SeenSurvives(h: History, h': History)
    requires h.entered <= h'.entered
    ensures forall q :: q in h.entered ==> q in h'.entered
    ensures forall x :: ProcessFrom(h, x) ==> ProcessFrom(h', x)
    ensures forall x :: PidFrom(h, x) ==> PidFrom(h', x)
    ensures forall x :: BaseFrom(h, x) ==> BaseFrom(h', x)
    ensures forall x :: SizeFrom(h, x) ==> SizeFrom(h', x)
  {
  }

  lemma LocalSurvives(s: State, s': State, pc: Pc)
    requires Grows(s, s') && LocalOk(s, pc)
    ensures LocalOk(s', pc)
  {
    SeenSurvives(s.h, s'.h);
  }

  lemma HistorySurvives(s: State, s': State)
    requires Grows(s, s') && HistoryOk(s)
    ensures forall i :: 0 <= i < |s.h.grants| ==> GrantOk(s', s.h.grants[i])
    ensures forall i :: 0 <= i < |s.h.checks| ==> CheckOk(s', s.h.checks[i])
  {
    SeenSurvives(s.h, s'.h);
  }

  /** Only `t` moved, and the mutex changed hands only if `t` took it or gave it up. */
  ghost predicate Moves(s: State, s': State, t: Tid)
  {
    && t in s'.pcs && s'.pcs == s.pcs[t := s'.pcs[t]]
    && (Critical(At(s', t)) <==> s'.mutex == Some(t))
    && (s'.mutex == s.mutex || (s.mutex == None && s'.mutex == Some(t)) || (s.mutex == Some(t) && s'.mutex == None))
  }

  ghost predicate Guarded(s: State)
  {
    match s.mutex
    case None => Settled(s)
    case Some(t) => Held(s, At(s, t))
  }

  ghost predicate Appends(s: State, s': State)
  {
    && (s'.h.grants == s.h.grants || exists g :: s'.h.grants == s.h.grants + [g] && GrantOk(s', g))
    && (s'.h.checks == s.h.checks || exists k :: s'.h.checks == s.h.checks + [k] && CheckOk(s', k))
  }

  lemma LocalsPreserved(s: State, s': State, t: Tid)
    requires forall u: Tid :: LocalOk(s, At(s, u))
    requires Grows(s, s') && Moves(s, s', t) && LocalOk(s', At(s', t))
    ensures forall u: Tid :: LocalOk(s', At(s', u))
  {
    forall u: Tid ensures LocalOk(s', At(s', u)) {
      if u != t { LocalSurvives(s, s', At(s, u)); }
    }
  }

  lemma HistoryPreserved(s: State, s': State)
    requires HistoryOk(s) && Grows(s, s') && Appends(s, s')
    ensures HistoryOk(s')
  {
    HistorySurvives(s, s');
  }

  lemma MutexPreserved(s: State, s': State, t: Tid)
    requires MutexOk(s) && Moves(s, s', t) && Guarded(s')
    ensures MutexOk(s')
  {
  }

  /** What a step of `t` has to show; no other thread is mentioned. */
  ghost predicate StepGood(s: State, s': State, t: Tid)
  {
    && Grows(s, s') && Moves(s, s', t) && Appends(s, s')
    && SharedOk(s') && Guarded(s') && LocalOk(s', At(s', t))
  }

  /** What a step of `t` may rely on. */
  ghost predicate Ready(s: State, t: Tid, pc: Pc)
  {
    && At(s, t) == pc && LocalOk(s, pc) && SharedOk(s) && Guarded(s)
    && (Critical(pc) <==> s.mutex == Some(t))
  }

  lemma Preserved(s: State, s': State, t: Tid)
    requires Inv(s) && StepGood(s, s', t)
    ensures Inv(s')
  {
    LocalsPreserved(s, s', t);
    HistoryPreserved(s, s');
    MutexPreserved(s, s', t);
  }

  /** A step that only moves its own thread between unlocked positions, perhaps recording an answer. */
  lemma QuietGood(s: State, s': State, t: Tid, pc: Pc)
    requires Ready(s, t, pc) && !Critical(pc) && t in s'.pcs && !Critical(s'.pcs[t])
    requires s'.c == s.c && s'.mutex == s.mutex && s'.pcs == s.pcs[t := s'.pcs[t]]
    requires s'.h.entered == s.h.entered && s'.h.published == s.h.published
    requires LocalOk(s', s'.pcs[t]) && Appends(s, s')
    ensures StepGood(s, s', t)
  {
    SeenSurvives(s.h, s'.h);
  }

  lemma VerifyGood(s: State, t: Tid, line: nat, q: Query)
    requires Ready(s, t, Verifying(line, q)) && VerifyStep(s, t, line, q) != s
    ensures StepGood(s, VerifyStep(s, t, line, q), t)
  {
    if line <= 301 {
      VerifyEntryGood(s, t, line, q);
    } else if line < 311 {
      VerifiedFieldGood(s, t, line, q);
    } else {
      VerifyOutcomeGood(s, t, line, q);
    }
  }

  /** Lines 258-301: the call enters and takes the mutex. */
  lemma VerifyEntryGood(s: State, t: Tid, line: nat, q: Query)
    requires Ready(s, t, Verifying(line, q)) && VerifyStep(s, t, line, q) != s && line <= 301
    ensures StepGood(s, VerifyStep(s, t, line, q), t)
  {
    if line == 258 {
      if s.c.performed { MoveGood(s, t, Verifying(258, q), Idle); } else { EnterGood(s, t, q); }
    } else {
      VerifyLockGood(s, t, q);
    }
  }

  lemma EnterGood(s: State, t: Tid, q: Query)
    requires Ready(s, t, Verifying(258, q)) && !s.c.performed
    ensures StepGood(s, VerifyStep(s, t, 258, q), t)
  {
    SeenSurvives(s.h, VerifyStep(s, t, 258, q).h);
  }

  lemma VerifyLockGood(s: State, t: Tid, q: Query)
    requires Ready(s, t, Verifying(301, q)) && s.mutex.None?
    ensures StepGood(s, VerifyStep(s, t, 301, q), t)
  {
  }

  /** Lines 305-308: one of the four Verified fields is written. */
  lemma VerifiedFieldGood(s: State, t: Tid, line: nat, q: Query)
    requires Ready(s, t, Verifying(line, q)) && VerifyStep(s, t, line, q) != s && 301 < line < 311
    ensures StepGood(s, VerifyStep(s, t, line, q), t)
  {
  }

  /** Lines 311-316: the outcome is published and the mutex released. */
  lemma VerifyOutcomeGood(s: State, t: Tid, line: nat, q: Query)
    requires Ready(s, t, Verifying(line, q)) && VerifyStep(s, t, line, q) != s && line >= 311
    ensures StepGood(s, VerifyStep(s, t, line, q), t)
  {
  }

  lemma HandGood(s: State, t: Tid, g: Grant)
    requires Ready(s, t, Retrieving(431, g.request, g.seen)) && GrantOk(s, g)
    ensures StepGood(s, Hand(s, t, g.request, g.seen, g.key), t)
  {
    var s' := Hand(s, t, g.request, g.seen, g.key);
    assert s'.h.grants == s.h.grants + [g] && GrantOk(s', g);
    QuietGood(s, s', t, Retrieving(431, g.request, g.seen));
  }

  /** A step that changes nothing but the place of its own thread. */
  lemma MoveGood(s: State, t: Tid, pc: Pc, pc': Pc)
    requires Ready(s, t, pc) && !Critical(pc) && !Critical(pc') && LocalOk(s, pc')
    ensures StepGood(s, Goto(s, t, pc'), t)
  {
    var s' := Goto(s, t, pc');
    LocalSurvives(s, s', pc');
    QuietGood(s, s', t, pc);
  }

  /** Before line 431 a retrieval only moves on, and learns what it read. */
  lemma RetrieveMoves(s: State, t: Tid, line: nat, r: Request, seen: Seen) returns (pc': Pc)
    requires LocalOk(s, Retrieving(line, r, seen)) && SharedOk(s) && RetrieveStep(s, t, line, r, seen) != s
    requires line == 431 ==> r.level != 1 && r.level != 2
    ensures RetrieveStep(s, t, line, r, seen) == Goto(s, t, pc') && !Critical(pc') && LocalOk(s, pc')
  {
    var s' := RetrieveStep(s, t, line, r, seen);
    pc' := s'.pcs[t];
  }

  /** Line 431: a key is handed out. */
  lemma HandOver(s: State, t: Tid, r: Request, seen: Seen)
    requires Ready(s, t, Retrieving(431, r, seen)) && (r.level == 1 || r.level == 2)
    ensures StepGood(s, RetrieveStep(s, t, 431, r, seen), t)
  {
    var g := Grant(r, seen, if r.level == 1 then s.c.l1 else s.c.l2);
    assert RetrieveStep(s, t, 431, r, seen) == Hand(s, t, r, seen, g.key);
    HandGood(s, t, g);
  }

  lemma RetrieveGood(s: State, t: Tid, line: nat, r: Request, seen: Seen)
    requires Ready(s, t, Retrieving(line, r, seen)) && RetrieveStep(s, t, line, r, seen) != s
    ensures StepGood(s, RetrieveStep(s, t, line, r, seen), t)
  {
    if line == 431 && (r.level == 1 || r.level == 2) {
      HandOver(s, t, r, seen);
    } else {
      var pc' := RetrieveMoves(s, t, line, r, seen);
      MoveGood(s, t, Retrieving(line, r, seen), pc');
    }
  }

  lemma GenerateGood(s: State, t: Tid, line: nat, r: Request, seen: Seen, k1: nat, k2: nat, draw: nat)
    requires Ready(s, t, Generating(line, r, seen, k1, k2)) && GenerateStep(s, t, line, r, seen, k1, k2, draw) != s
    ensures StepGood(s, GenerateStep(s, t, line, r, seen, k1, k2, draw), t)
  {
    if line < 384 {
      QuietGood(s, GenerateStep(s, t, line, r, seen, k1, k2, draw), t, Generating(line, r, seen, k1, k2));
    } else {
      KeyWriteGood(s, t, line, r, seen, k1, k2, draw);
    }
  }

  lemma KeyWriteGood(s: State, t: Tid, line: nat, r: Request, seen: Seen, k1: nat, k2: nat, draw: nat)
    requires Ready(s, t, Generating(line, r, seen, k1, k2)) && GenerateStep(s, t, line, r, seen, k1, k2, draw) != s
    requires line >= 384
    ensures StepGood(s, GenerateStep(s, t, line, r, seen, k1, k2, draw), t)
  {
    if line <= 386 || line == 394 { KeyMutexGood(s, t, line, r, seen, k1, k2, draw); }
  }

  /** Lines 384, 386 and 394: the mutex is taken, the flag read again and the mutex released. */
  lemma KeyMutexGood(s: State, t: Tid, line: nat, r: Request, seen: Seen, k1: nat, k2: nat, draw: nat)
    requires Ready(s, t, Generating(line, r, seen, k1, k2)) && GenerateStep(s, t, line, r, seen, k1, k2, draw) != s
    requires line == 384 || line == 386 || line == 394
    ensures StepGood(s, GenerateStep(s, t, line, r, seen, k1, k2, draw), t)
  {
  }

  lemma ConcludeGood(s: State, t: Tid, line: nat, k: Check)
    requires Ready(s, t, Validating(line, k.v)) && CheckOk(s, k)
    ensures StepGood(s, Conclude(s, t, k.v, k.sawSucceeded, k.sawGenerated, k.ok), t)
  {
    var s' := Conclude(s, t, k.v, k.sawSucceeded, k.sawGenerated, k.ok);
    assert s'.h.checks == s.h.checks + [k] && CheckOk(s', k);
    QuietGood(s, s', t, Validating(line, k.v));
  }

  lemma ValidateMoves(s: State, t: Tid, line: nat, v: Validation) returns (pc': Pc)
    requires LocalOk(s, Validating(line, v)) && !At(ValidateStep(s, t, line, v), t).Idle? && ValidateStep(s, t, line, v) != s
    ensures ValidateStep(s, t, line, v) == Goto(s, t, pc') && !Critical(pc') && LocalOk(s, pc')
  {
    pc' := At(ValidateStep(s, t, line, v), t);
  }

  lemma ValidateGood(s: State, t: Tid, line: nat, v: Validation)
    requires Ready(s, t, Validating(line, v)) && ValidateStep(s, t, line, v) != s
    ensures StepGood(s, ValidateStep(s, t, line, v), t)
  {
    var s' := ValidateStep(s, t, line, v);
    if !At(s', t).Idle? {
      var pc' := ValidateMoves(s, t, line, v);
      MoveGood(s, t, Validating(line, v), pc');
    } else if line == 457 {
      ConcludeGood(s, t, line, Check(v, false, false, v.key != 0 || v.kernelMode));
    } else if line == 465 {
      ConcludeGood(s, t, line, Check(v, false, false, false));
    } else {
      ConcludeGood(s, t, line, Check(v, true, s.c.keysGenerated, line == 472 || ((line == 473 || line == 478) && v.key == s.c.l2)));
    }
  }

  lemma StartGood(s: State, t: Tid, call: Call)
    requires Ready(s, t, Idle) && HistoryOk(s) && Start(s, t, call) != s
    ensures StepGood(s, Start(s, t, call), t)
  {
    QuietGood(s, Start(s, t, call), t, Idle);
  }

  lemma NextGood(s: State, e: Event)
    requires Ready(s, e.t, At(s, e.t)) && HistoryOk(s) && Next(s, e) != s
    ensures StepGood(s, Next(s, e), e.t)
  {
    match e
    case Begin(t, call) => StartGood(s, t, call);
    case Step(t, draw) =>
      match At(s, t)
      case Verifying(line, q) => VerifyGood(s, t, line, q);
      case Retrieving(line, r, seen) => RetrieveGood(s, t, line, r, seen);
      case Generating(line, r, seen, k1, k2) => GenerateGood(s, t, line, r, seen, k1, k2, draw);
      case Validating(line, v) => ValidateGood(s, t, line, v);
  }

  lemma NextPreserves(s: State, e: Event)
    requires Inv(s)
    ensures Inv(Next(s, e))
  {
    if Next(s, e) != s {
      NextGood(s, e);
      Preserved(s, Next(s, e), e.t);
    }
  }

  lemma {:induction false} Invariant(evs: seq<Event>)
    ensures Inv(Run(evs))
  {
    if evs != [] {
      Invariant(evs[..|evs| - 1]);
      NextPreserves(Run(evs[..|evs| - 1]), evs[|evs| - 1]);
    }
  }
}
