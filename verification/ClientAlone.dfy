/**
 What one call does to the client when no other thread moves in between: the
 sequential reading of KphVerifyClient, KphRetrieveKeyViaApc and KphValidateKey,
 from any state in which the mutex is free.
 */
module ClientAlone {
  import opened Common
  import opened ClientProtocol
  import opened ClientInvariant

  /** Thread `t` takes one step for each draw. */
  function Then(s: State, t: Tid, draws: seq<nat>): State
    decreases |draws|
  {
    if draws == [] then s else Then(Next(s, Step(t, draws[0])), t, draws[1..])
  }

  /** Thread `t` starts a call and takes the steps. */
  function Alone(s: State, t: Tid, call: Call, draws: seq<nat>): State { Then(Next(s, Begin(t, call)), t, draws) }

  lemma ThenOne(s: State, t: Tid, d: nat, draws: seq<nat>)
    ensures Then(s, t, [d] + draws) == Then(Next(s, Step(t, d)), t, draws)
  {
    assert ([d] + draws)[1..] == draws;
  }

  lemma {:induction false} ThenIdle(s: State, t: Tid, draws: seq<nat>)
    requires At(s, t).Idle?
    ensures Then(s, t, draws) == s
    decreases |draws|
  {
    if draws != [] { ThenIdle(s, t, draws[1..]); }
  }

  // ----- KphValidateKey -----

  lemma ValidateAlone(s: State, t: Tid, level: int, key: nat, kernelMode: bool)
    requires At(s, t).Idle?
    ensures var c, s' := s.c, Alone(s, t, Validate(level, key, kernelMode), [0, 0, 0, 0, 0]);
            && At(s', t).Idle? && s'.c == c && s'.mutex == s.mutex && s'.h.grants == s.h.grants
            && |s'.h.checks| == |s.h.checks| + 1 && s'.h.checks[..|s.h.checks|] == s.h.checks
            && var k := s'.h.checks[|s.h.checks|];
               && k.v.level == level && k.v.key == key && k.v.kernelMode == kernelMode
               && (k.v.granted <==> exists i :: 0 <= i < |s.h.grants| && s.h.grants[i].key == key)
               && (k.ok <==>
                     || kernelMode || key == 0xFFFF_FFFF
                     || (&& key != 0 && c.succeeded && c.keysGenerated
                         && ((level == 1 && (key == c.l1 || key == c.l2)) || (level == 2 && key == c.l2))))
  {
    var s1 := Next(s, Begin(t, Validate(level, key, kernelMode)));
    assert [0, 0, 0, 0, 0] == [0] + [0, 0, 0, 0];
    ThenOne(s1, t, 0, [0, 0, 0, 0]);
    var s2 := Next(s1, Step(t, 0));
    if At(s2, t).Idle? {
      ThenIdle(s2, t, [0, 0, 0, 0]);
    } else {
      ValidateFlags(s2, t, At(s2, t).v);
    }
  }

  /** From line 465 on. */
  lemma ValidateFlags(s: State, t: Tid, v: Validation)
    requires At(s, t) == Validating(465, v)
    ensures var c, s' := s.c, Then(s, t, [0, 0, 0, 0]);
            && At(s', t).Idle? && s'.c == c && s'.mutex == s.mutex && s'.h.grants == s.h.grants
            && (exists k :: s'.h.checks == s.h.checks + [k] && k.v == v && (k.ok <==> c.succeeded && c.keysGenerated && Opens(c, v)))
  {
    assert [0, 0, 0, 0] == [0] + [0, 0, 0];
    ThenOne(s, t, 0, [0, 0, 0]);
    var s1 := Next(s, Step(t, 0));
    if At(s1, t).Idle? {
      ThenIdle(s1, t, [0, 0, 0]);
      assert s1.h.checks == s.h.checks + [Check(v, false, false, false)];
    } else {
      assert [0, 0, 0] == [0] + [0, 0];
      ThenOne(s1, t, 0, [0, 0]);
      var s2 := Next(s1, Step(t, 0));
      if At(s2, t).Idle? {
        ThenIdle(s2, t, [0, 0]);
        assert s2.h.checks == s.h.checks + [Check(v, true, s.c.keysGenerated, false)];
      } else {
        ValidateKeys(s2, t, v);
      }
    }
  }

  /** From line 472 or 478 on. */
  lemma ValidateKeys(s: State, t: Tid, v: Validation)
    requires At(s, t) == Validating(if v.level == 1 then 472 else 478, v) && (v.level == 1 || v.level == 2)
    ensures var c, s' := s.c, Then(s, t, [0, 0]);
            && At(s', t).Idle? && s'.c == c && s'.mutex == s.mutex && s'.h.grants == s.h.grants
            && s'.h.checks == s.h.checks + [Check(v, true, true, Opens(c, v))]
  {
    assert [0, 0] == [0] + [0] && [0] == [0] + [];
    ThenOne(s, t, 0, [0]);
    var s1 := Next(s, Step(t, 0));
    if At(s1, t).Idle? { ThenIdle(s1, t, [0]); } else { ThenOne(s1, t, 0, []); }
  }

  // ----- KphVerifyClient -----

  /** The client after a call that was the first to get through. */
  predicate Verified(c: Client, q: Query, c': Client)
  {
    && c'.performed && c'.status == VerifyStatus(q) && c'.succeeded == (VerifyStatus(q) >= 0)
    && c'.keysGenerated == c.keysGenerated && c'.l1 == c.l1 && c'.l2 == c.l2
    && if VerifyStatus(q) >= 0 then c'.process == q.process && c'.pid == q.pid && c'.base == q.base && c'.size == q.size
       else c'.process == c.process && c'.pid == c.pid && c'.base == c.base && c'.size == c.size
  }

  /** Only the first call has an effect; a refused one leaves the four Verified fields alone. */
  lemma VerifyAlone(s: State, t: Tid, q: Query)
    requires At(s, t).Idle? && s.mutex == None && SystemAnswer(q)
    ensures var s' := Alone(s, t, Verify(q), [0, 0, 0, 0, 0, 0, 0, 0, 0, 0]);
            && At(s', t).Idle? && s'.mutex == None && s'.h.grants == s.h.grants && s'.h.checks == s.h.checks
            && if s.c.performed then s'.c == s.c && s'.h.entered == s.h.entered
               else Verified(s.c, q, s'.c) && s'.h.entered == s.h.entered + [q]
  {
    var s1 := Next(s, Begin(t, Verify(q)));
    var eight := [0, 0, 0, 0, 0, 0, 0, 0];
    assert [0, 0, 0, 0, 0, 0, 0, 0, 0, 0] == [0] + ([0] + eight);
    ThenOne(s1, t, 0, [0] + eight);
    var s2 := Next(s1, Step(t, 0));
    if s.c.performed {
      ThenIdle(s2, t, [0] + eight);
    } else {
      ThenOne(s2, t, 0, eight);
      VerifyLocked(Next(s2, Step(t, 0)), t, q);
    }
  }

  /** With the mutex held: four fields if the call passes, then the outcome. */
  lemma VerifyLocked(s: State, t: Tid, q: Query)
    requires At(s, t) == Verifying(if Passes(q) then 305 else 311, q)
    ensures var s' := Then(s, t, [0, 0, 0, 0, 0, 0, 0, 0]);
            && At(s', t).Idle? && s'.mutex == None && s'.h.grants == s.h.grants && s'.h.checks == s.h.checks
            && s'.h.entered == s.h.entered && Verified(s.c, q, s'.c)
  {
    var four := [0, 0, 0, 0];
    assert [0, 0, 0, 0, 0, 0, 0, 0] == four + four;
    if Passes(q) {
      var s1 := Fields(s, t, q, four);
      OutcomeStored(s1, t, q, []);
      assert four == four + [];
    } else {
      OutcomeStored(s, t, q, four);
    }
  }

  lemma Fields(s: State, t: Tid, q: Query, more: seq<nat>) returns (s': State)
    requires At(s, t) == Verifying(305, q)
    ensures Then(s, t, [0, 0, 0, 0] + more) == Then(s', t, more)
    ensures At(s', t) == Verifying(311, q) && s'.h == s.h
    ensures s'.c == s.c.(process := q.process, pid := q.pid, base := q.base, size := q.size)
  {
    s' := FourSteps(s, t, more);
  }

  lemma OutcomeStored(s: State, t: Tid, q: Query, more: seq<nat>)
    requires At(s, t) == Verifying(311, q)
    ensures var s' := Then(s, t, [0, 0, 0, 0] + more);
            && At(s', t).Idle? && s'.mutex == None && s'.h == s.h.(published := s'.h.published)
            && s'.c == s.c.(status := VerifyStatus(q), succeeded := Passes(q), performed := true)
  {
    var s' := FourSteps(s, t, more);
    ThenIdle(s', t, more);
  }

  lemma FourSteps(s: State, t: Tid, more: seq<nat>) returns (s': State)
    ensures s' == Next(Next(Next(Next(s, Step(t, 0)), Step(t, 0)), Step(t, 0)), Step(t, 0))
    ensures Then(s, t, [0, 0, 0, 0] + more) == Then(s', t, more)
  {
    s' := FourDraws(s, t, 0, more);
  }

  lemma FourDraws(s: State, t: Tid, d: nat, more: seq<nat>) returns (s': State)
    ensures s' == Next(Next(Next(Next(s, Step(t, d)), Step(t, 0)), Step(t, 0)), Step(t, 0))
    ensures Then(s, t, [d, 0, 0, 0] + more) == Then(s', t, more)
  {
    var s1 := Next(s, Step(t, d));
    var s2 := Next(s1, Step(t, 0));
    var s3 := Next(s2, Step(t, 0));
    s' := Next(s3, Step(t, 0));
    assert [d, 0, 0, 0] + more == [d] + ([0] + ([0] + ([0] + more)));
    ThenOne(s, t, d, [0] + ([0] + ([0] + more)));
    ThenOne(s1, t, 0, [0] + ([0] + more));
    ThenOne(s2, t, 0, [0] + more);
    ThenOne(s3, t, 0, more);
  }

  lemma TwoDraws(s: State, t: Tid, d: nat, more: seq<nat>) returns (s': State)
    ensures s' == Next(Next(s, Step(t, 0)), Step(t, d)) && Then(s, t, [0, d] + more) == Then(s', t, more)
  {
    s' := Next(Next(s, Step(t, 0)), Step(t, d));
    assert [0, d] + more == [0] + ([d] + more);
    ThenOne(s, t, 0, [d] + more);
    ThenOne(Next(s, Step(t, 0)), t, d, more);
  }

  // ----- KphRetrieveKeyViaApc -----

  /** The tests of lines 408 to 427. */
  predicate Allowed(c: Client, r: Request)
  {
    && c.succeeded && r.process == c.process && r.pid == c.pid && r.routine != 0
    && c.base <= r.routine < (c.base + c.size) % 0x1_0000_0000_0000_0000
  }

  /** The steps of the longest retrieval: six tests, then 373 and the two draws, then the rest. */
  function RetrieveDraws(d1: nat, d2: nat): seq<nat>
  {
    [0, 0, 0, 0] + ([0, 0] + ([0, d1] + ([d2, 0, 0, 0] + [0, 0, 0, 0])))
  }

  /**
   A retrieval that the client's own fields do not refuse hands out the key of its
   level, generating both keys first if there are none; any other changes nothing.
   */
  lemma RetrieveAlone(s: State, t: Tid, r: Request, d1: nat, d2: nat)
    requires At(s, t).Idle? && s.mutex == None && d1 != d2 && d1 <= RANDOM_MAX && d2 <= RANDOM_MAX
    ensures var c, s' := s.c, Alone(s, t, Retrieve(r), RetrieveDraws(d1, d2));
            && At(s', t).Idle? && s'.mutex == None && s'.h.checks == s.h.checks && s'.h.entered == s.h.entered
            && if !Allowed(c, r) then s'.c == c && s'.h.grants == s.h.grants
               else
                 && s'.c == (if c.keysGenerated then c else c.(keysGenerated := true, l1 := 0x8000_0000 + d1, l2 := 0x8000_0000 + d2))
                 && (r.level != 1 && r.level != 2 ==> s'.h.grants == s.h.grants)
                 && (r.level == 1 || r.level == 2 ==>
                       && |s'.h.grants| == |s.h.grants| + 1 && s'.h.grants[..|s.h.grants|] == s.h.grants
                       && s'.h.grants[|s.h.grants|].request == r
                       && s'.h.grants[|s.h.grants|].key == if r.level == 1 then s'.c.l1 else s'.c.l2)
  {
    var s1 := Next(s, Begin(t, Retrieve(r)));
    var rest := [d2, 0, 0, 0] + [0, 0, 0, 0];
    var s2 := Tested(s1, t, r, [0, d1] + rest);
    if Allowed(s.c, r) {
      Handed(s2, t, r, At(s2, t).seen, d1, d2);
    } else {
      ThenIdle(s2, t, [0, d1] + rest);
    }
  }

  /** The six tests. */
  lemma Tested(s: State, t: Tid, r: Request, more: seq<nat>) returns (s': State)
    requires At(s, t) == Retrieving(408, r, Seen(0, 0, 0, 0, 0))
    ensures Then(s, t, [0, 0, 0, 0] + ([0, 0] + more)) == Then(s', t, more)
    ensures s' == s.(pcs := s'.pcs)
    ensures if Allowed(s.c, r) then At(s', t).Generating? && At(s', t) == Generating(373, r, At(s', t).seen, 0, 0) else At(s', t).Idle?
  {
    var s4 := FourSteps(s, t, [0, 0] + more);
    FourTests(s, t, r);
    s' := TwoDraws(s4, t, 0, more);
  }

  lemma FourTests(s: State, t: Tid, r: Request)
    requires At(s, t) == Retrieving(408, r, Seen(0, 0, 0, 0, 0))
    ensures var c, s' := s.c, Next(Next(Next(Next(s, Step(t, 0)), Step(t, 0)), Step(t, 0)), Step(t, 0));
            && s' == s.(pcs := s'.pcs)
            && if c.succeeded && r.process == c.process && r.pid == c.pid && r.routine != 0 && c.base <= r.routine
               then At(s', t) == Retrieving(424, r, Seen(c.process, c.pid, c.base, 0, 0)) else At(s', t).Idle?
  {
    var s2 := Next(Next(s, Step(t, 0)), Step(t, 0));
    assert s2 == s.(pcs := s2.pcs);
    assert At(s2, t) == if s.c.succeeded && r.process == s.c.process then Retrieving(414, r, Seen(s.c.process, 0, 0, 0, 0)) else Idle;
  }

  /** The keys are there, or are drawn and stored; then one is handed out. */
  lemma Handed(s: State, t: Tid, r: Request, seen: Seen, d1: nat, d2: nat)
    requires At(s, t) == Generating(373, r, seen, 0, 0) && s.mutex == None && d1 != d2 && d1 <= RANDOM_MAX && d2 <= RANDOM_MAX
    ensures var c, s' := s.c, Then(s, t, [0, d1] + ([d2, 0, 0, 0] + [0, 0, 0, 0]));
            && At(s', t).Idle? && s'.mutex == None && s'.h == s.h.(grants := s'.h.grants)
            && s'.c == (if c.keysGenerated then c else c.(keysGenerated := true, l1 := KEY_BIT + d1, l2 := KEY_BIT + d2))
            && s'.h.grants == if r.level == 1 then s.h.grants + [Grant(r, seen, s'.c.l1)]
                              else if r.level == 2 then s.h.grants + [Grant(r, seen, s'.c.l2)] else s.h.grants
  {
    var rest := [d2, 0, 0, 0] + [0, 0, 0, 0];
    var s2 := TwoDraws(s, t, d1, rest);
    if s.c.keysGenerated {
      assert Next(s, Step(t, 0)) == Goto(s, t, Retrieving(431, r, seen));
      ThenIdle(s2, t, rest);
    } else {
      assert At(s2, t) == Generating(381, r, seen, KEY_BIT + d1, 0) && s2 == s.(pcs := s2.pcs);
      var s3 := FourDraws(s2, t, d2, [0, 0, 0, 0]);
      KeysStored(s2, t, r, seen, KEY_BIT + d1, d2);
      assert [0, 0, 0, 0] == [0, 0, 0, 0] + [];
      var s4 := FourSteps(s3, t, []);
      KeysPublished(s3, t, r, seen, KEY_BIT + d1, KEY_BIT + d2);
    }
  }

  lemma KeysStored(s: State, t: Tid, r: Request, seen: Seen, k1: nat, d2: nat)
    requires At(s, t) == Generating(381, r, seen, k1, 0) && s.mutex == None && KEY_BIT + d2 != k1 && d2 <= RANDOM_MAX && !s.c.keysGenerated
    ensures var s' := Next(Next(Next(Next(s, Step(t, d2)), Step(t, 0)), Step(t, 0)), Step(t, 0));
            && At(s', t) == Generating(389, r, seen, k1, KEY_BIT + d2) && s'.mutex == Some(t) && s'.h == s.h && s'.c == s.c.(l1 := k1)
  {
    var s2 := Next(Next(s, Step(t, d2)), Step(t, 0));
    assert At(s2, t) == Generating(386, r, seen, k1, KEY_BIT + d2) && s2.c == s.c;
  }

  lemma KeysPublished(s: State, t: Tid, r: Request, seen: Seen, k1: nat, k2: nat)
    requires At(s, t) == Generating(389, r, seen, k1, k2) && s.mutex == Some(t)
    ensures var s' := Next(Next(Next(Next(s, Step(t, 0)), Step(t, 0)), Step(t, 0)), Step(t, 0));
            && At(s', t).Idle? && s'.mutex == None && s'.c == s.c.(l2 := k2, keysGenerated := true)
            && s'.h == s.h.(grants := if r.level == 1 then s.h.grants + [Grant(r, seen, s.c.l1)]
                                      else if r.level == 2 then s.h.grants + [Grant(r, seen, k2)] else s.h.grants)
  {
    var s2 := Next(Next(s, Step(t, 0)), Step(t, 0));
    assert At(s2, t) == Generating(394, r, seen, k1, k2) && s2.c == s.c.(l2 := k2, keysGenerated := true);
    var s3 := Next(s2, Step(t, 0));
    assert At(s3, t) == Retrieving(431, r, seen) && s3.mutex == None && s3.c == s2.c;
  }

  // ----- every call completes -----

  /** How many steps a call has left at most; no step is ever waited for at any other line. */
  function StepsLeft(pc: Pc): nat
  {
    match pc
    case Idle => 0
    case Verifying(line, _) =>
      if line == 258 then 10 else if line == 301 then 9 else if line == 305 then 8 else if line == 306 then 7
      else if line == 307 then 6 else if line == 308 then 5 else if line == 311 then 4 else if line == 313 then 3
      else if line == 314 then 2 else if line == 316 then 1 else 0
    case Retrieving(line, _, _) =>
      if line == 408 then 16 else if line == 413 then 15 else if line == 414 then 14 else if line == 423 then 13
      else if line == 424 then 12 else if line == 425 then 11 else if line == 431 then 1 else 0
    case Generating(line, _, _, _, _) =>
      if line == 373 then 10 else if line == 378 then 9 else if line == 381 then 8 else if line == 384 then 7
      else if line == 386 then 6 else if line == 388 then 5 else if line == 389 then 4 else if line == 391 then 3
      else if line == 394 then 2 else 0
    case Validating(line, _) =>
      if line == 457 then 5 else if line == 465 then 4 else if line == 466 then 3 else if line == 472 then 2
      else if line == 473 || line == 478 then 1 else 0
  }

  predicate Known(pc: Pc) { pc.Idle? || StepsLeft(pc) > 0 }

  lemma StaysKnown(s: State, e: Event)
    requires forall t: Tid :: Known(At(s, t))
    ensures forall t: Tid :: Known(At(Next(s, e), t))
  {
    forall t: Tid ensures Known(At(Next(s, e), t)) {
      if t == e.t { OwnStepKnown(s, e); } else { OthersStay(s, e, t); }
    }
  }

  lemma OwnStepKnown(s: State, e: Event)
    requires Known(At(s, e.t))
    ensures Known(At(Next(s, e), e.t))
  {
  }

  lemma OthersStay(s: State, e: Event, t: Tid)
    requires t != e.t
    ensures At(Next(s, e), t) == At(s, t)
  {
  }

  lemma {:induction false} AlwaysKnown(evs: seq<Event>)
    ensures forall t: Tid :: Known(At(Run(evs), t))
  {
    if evs != [] {
      AlwaysKnown(evs[..|evs| - 1]);
      StaysKnown(Run(evs[..|evs| - 1]), evs[|evs| - 1]);
    }
  }

  /** A draw that the generator can give here and that is no repetition. */
  function Draw(pc: Pc): nat { if pc.Generating? && pc.k1 == KEY_BIT then 1 else 0 }

  /** With the mutex free or its own, a thread always gets one step further. */
  lemma OwnProgress(s: State, t: Tid)
    requires Known(At(s, t)) && !At(s, t).Idle? && (Critical(At(s, t)) <==> s.mutex == Some(t)) && (s.mutex.Some? ==> s.mutex == Some(t))
    ensures var s' := Next(s, Step(t, Draw(At(s, t))));
            StepsLeft(At(s', t)) < StepsLeft(At(s, t)) && (s'.mutex.Some? ==> s'.mutex == Some(t))
  {
  }

  ghost predicate OnlySteps(evs: seq<Event>, t: Tid) { forall e :: e in evs ==> e.Step? && e.t == t }

  /** In every reachable state a thread that holds the mutex, or any thread if it is free, completes its call by itself. */
  lemma {:induction false} CallCompletes(evs: seq<Event>, t: Tid) returns (more: seq<Event>)
    requires Run(evs).mutex.Some? ==> Run(evs).mutex == Some(t)
    ensures OnlySteps(more, t) && At(Run(evs + more), t).Idle? && Run(evs + more).mutex == None
    decreases StepsLeft(At(Run(evs), t))
  {
    if At(Run(evs), t).Idle? {
      more := [];
      IdleHoldsNothing(evs, t);
      assert evs + [] == evs;
    } else {
      var e := ProgressingStep(evs, t);
      var rest := CallCompletes(evs + [e], t);
      more := [e] + rest;
      Regrouped(evs, e, rest);
    }
  }

  lemma Regrouped(evs: seq<Event>, e: Event, rest: seq<Event>)
    ensures Run(evs + ([e] + rest)) == Run((evs + [e]) + rest)
  {
    assert evs + ([e] + rest) == (evs + [e]) + rest;
  }

  lemma IdleHoldsNothing(evs: seq<Event>, t: Tid)
    requires At(Run(evs), t).Idle?
    ensures Run(evs).mutex != Some(t)
  {
    Invariant(evs);
    HolderIsCritical(Run(evs), t);
  }

  lemma ProgressingStep(evs: seq<Event>, t: Tid) returns (e: Event)
    requires !At(Run(evs), t).Idle? && (Run(evs).mutex.Some? ==> Run(evs).mutex == Some(t))
    ensures e.Step? && e.t == t && (Run(evs + [e]).mutex.Some? ==> Run(evs + [e]).mutex == Some(t))
    ensures StepsLeft(At(Run(evs + [e]), t)) < StepsLeft(At(Run(evs), t))
  {
    Invariant(evs);
    AlwaysKnown(evs);
    HolderIsCritical(Run(evs), t);
    OwnProgress(Run(evs), t);
    e := Step(t, Draw(At(Run(evs), t)));
    assert (evs + [e])[..|evs|] == evs;
  }

  lemma HolderIsCritical(s: State, t: Tid)
    requires Inv(s)
    ensures Critical(At(s, t)) <==> s.mutex == Some(t)
  {
  }
}
