/** What the verification and key protocol guarantees over every interleaving, and where it stops. */
module ClientTheorems {
  import opened Common
  import opened ClientProtocol
  import opened ClientInvariant

  // ----- keys -----

  lemma NextGrows(s: State, e: Event)
    requires Inv(s)
    ensures Grows(s, Next(s, e))
  {
    if Next(s, e) != s { NextGood(s, e); }
  }

  lemma {:induction false} RunGrows(evs: seq<Event>, n: nat)
    requires n <= |evs|
    ensures Grows(Run(evs[..n]), Run(evs))
  {
    if n == |evs| {
      assert evs[..n] == evs;
    } else {
      var init := evs[..|evs| - 1];
      assert init[..n] == evs[..n];
      RunGrows(init, n);
      Invariant(init);
      NextGrows(Run(init), evs[|evs| - 1]);
    }
  }

  /** Once generated, both keys have the top bit set, differ, and never change again. */
  lemma KeysFrozen(evs: seq<Event>, n: nat)
    requires n <= |evs| && Run(evs[..n]).c.keysGenerated
    ensures Run(evs).c.keysGenerated
    ensures Run(evs).c.l1 == Run(evs[..n]).c.l1 && Run(evs).c.l2 == Run(evs[..n]).c.l2
    ensures KEY_BIT <= Run(evs).c.l1 < TWO32 && KEY_BIT <= Run(evs).c.l2 < TWO32
    ensures Run(evs).c.l1 != Run(evs).c.l2
  {
    RunGrows(evs, n);
    Invariant(evs);
  }

  /** Two retrievals hand out the same key exactly when they asked for the same level. */
  lemma RetrievalsAgree(evs: seq<Event>, i: nat, j: nat)
    requires i < |Run(evs).h.grants| && j < |Run(evs).h.grants|
    ensures var g := Run(evs).h.grants; g[i].key == g[j].key <==> g[i].request.level == g[j].request.level
    ensures Run(evs).h.grants[i].request.level in {1, 2} && Run(evs).h.grants[i].key >= KEY_BIT
  {
    Invariant(evs);
    assert GrantOk(Run(evs), Run(evs).h.grants[i]) && GrantOk(Run(evs), Run(evs).h.grants[j]);
  }

  // ----- key levels -----

  /**
   Every answer of KphValidateKey: kernel-mode callers and the key 0xFFFFFFFF are
   always let through; any other check exactly if it saw the success and the keys,
   and its key is one of the two at level 1 or the level-2 key at level 2.
   */
  lemma ChecksExact(evs: seq<Event>, j: nat)
    requires j < |Run(evs).h.checks|
    ensures var k, c := Run(evs).h.checks[j], Run(evs).c;
            if k.v.kernelMode || k.v.key == 0xFFFF_FFFF then k.ok
            else
              k.ok <==>
              && k.sawSucceeded && k.sawGenerated
              && ((k.v.level == 1 && (k.v.key == c.l1 || k.v.key == c.l2)) || (k.v.level == 2 && k.v.key == c.l2))
  {
    Invariant(evs);
    assert CheckOk(Run(evs), Run(evs).h.checks[j]);
  }

  /** The first test that fails decides the status; a call passes exactly if none does. */
  lemma VerifyStatusExact(q: Query)
    ensures Passes(q) <==>
            && q.codeAddress <= 0x7FFF_FFFE_FFFF && q.locate >= 0 && q.query >= 0 && q.isImage && q.isCommitted
            && q.mappedName >= 0 && q.sameFile
    ensures q.codeAddress > 0x7FFF_FFFE_FFFF ==> VerifyStatus(q) == 0xC000_0005 - 0x1_0000_0000
    ensures q.codeAddress <= 0x7FFF_FFFE_FFFF ==>
              && (q.locate < 0 ==> VerifyStatus(q) == q.locate)
              && (q.locate >= 0 && q.query < 0 ==> VerifyStatus(q) == q.query)
              && (q.locate >= 0 && q.query >= 0 ==>
                    && (!(q.isImage && q.isCommitted) ==> VerifyStatus(q) == 0xC000_000D - 0x1_0000_0000)
                    && (q.isImage && q.isCommitted && q.mappedName < 0 ==> VerifyStatus(q) == q.mappedName)
                    && (q.isImage && q.isCommitted && q.mappedName >= 0 ==>
                          VerifyStatus(q) == if q.sameFile then 0 else 0xC000_000D - 0x1_0000_0000))
  {
  }

  /** An open asks for level 1 exactly if it wants no right outside the read mask, and otherwise for level 2. */
  lemma RequiredLevelExact(desired: bv32, readMask: bv32)
    ensures RequiredLevel(desired, readMask) == if desired & !readMask == 0 then 1 else 2
  {
    if desired & readMask == desired { NothingOutside(desired, readMask); }
    if desired & !readMask == 0 { AllInside(desired, readMask); }
  }

  lemma NothingOutside(desired: bv32, mask: bv32)
    requires desired & mask == desired
    ensures desired & !mask == 0
  {
  }

  lemma AllInside(desired: bv32, mask: bv32)
    requires desired & !mask == 0
    ensures desired & mask == desired
  {
    SplitByMask(desired, mask);
    var inside := desired & mask;
    assert inside | 0 == inside;
  }

  lemma SplitByMask(desired: bv32, mask: bv32)
    ensures desired == (desired & mask) | (desired & !mask)
  {
  }

  /**
   A check by a user-mode caller against a key that was handed out: a level-2 key
   passes at both levels, a level-1 key passes at level 1 and never at level 2.
   */
  lemma KeyLevels(evs: seq<Event>, i: nat, j: nat)
    requires i < |Run(evs).h.grants| && j < |Run(evs).h.checks|
    requires var k := Run(evs).h.checks[j]; !k.v.kernelMode && k.v.key == Run(evs).h.grants[i].key
    ensures var g, k := Run(evs).h.grants[i], Run(evs).h.checks[j];
            && (k.ok && k.v.level == 2 ==> g.request.level == 2)
            && (k.v.granted && k.sawSucceeded && k.v.level == 1 ==> k.ok)
            && (k.v.granted && k.sawSucceeded && k.v.level == 2 ==> (k.ok <==> g.request.level == 2))
  {
    var s := Run(evs);
    Invariant(evs);
    assert GrantOk(s, s.h.grants[i]) && CheckOk(s, s.h.checks[j]);
  }

  /** With a level-1 key an open succeeds exactly if it wants no right outside the read mask. */
  lemma Level1OpensExactly(evs: seq<Event>, i: nat, j: nat, desired: bv32, readMask: bv32)
    requires i < |Run(evs).h.grants| && j < |Run(evs).h.checks|
    requires Run(evs).h.grants[i].request.level == 1
    requires var k := Run(evs).h.checks[j];
             && !k.v.kernelMode && k.v.key == Run(evs).h.grants[i].key && k.v.granted && k.sawSucceeded
             && k.v.level == RequiredLevel(desired, readMask)
    ensures Run(evs).h.checks[j].ok <==> desired & !readMask == 0
  {
    KeyLevels(evs, i, j);
    RequiredLevelExact(desired, readMask);
  }

  /** The rights a level-1 key does suffice for: reading, querying and waiting. */
  lemma ReadMasks()
    ensures PROCESS_READ_ACCESS ==
            READ_CONTROL | SYNCHRONIZE | PROCESS_QUERY_INFORMATION | PROCESS_QUERY_LIMITED_INFORMATION | PROCESS_VM_READ
    ensures THREAD_READ_ACCESS ==
            READ_CONTROL | SYNCHRONIZE | THREAD_QUERY_INFORMATION | THREAD_QUERY_LIMITED_INFORMATION | THREAD_GET_CONTEXT
  {
  }

  /** An open that a level-1 key let through asks for nothing outside the read mask. */
  lemma Level1OpensReadOnly(evs: seq<Event>, i: nat, j: nat, desired: bv32, readMask: bv32)
    requires i < |Run(evs).h.grants| && j < |Run(evs).h.checks|
    requires Run(evs).h.grants[i].request.level == 1
    requires var k := Run(evs).h.checks[j];
             && !k.v.kernelMode && k.v.key == Run(evs).h.grants[i].key
             && k.ok && k.v.level == RequiredLevel(desired, readMask)
    ensures desired & !readMask == 0
  {
    KeyLevels(evs, i, j);
    assert desired & readMask == desired;
  }

  /**
   In particular a level-1 key never opens a process to terminate it or write its
   memory, nor a thread to terminate it or change its context.
   */
  lemma Level1NeverWrites(evs: seq<Event>, i: nat, j: nat, desired: bv32, process: bool)
    requires i < |Run(evs).h.grants| && j < |Run(evs).h.checks|
    requires Run(evs).h.grants[i].request.level == 1
    requires var k := Run(evs).h.checks[j];
             && !k.v.kernelMode && k.v.key == Run(evs).h.grants[i].key && k.ok
             && k.v.level == RequiredLevel(desired, if process then PROCESS_READ_ACCESS else THREAD_READ_ACCESS)
    ensures process ==> desired & (PROCESS_TERMINATE | PROCESS_VM_WRITE) == 0
    ensures !process ==> desired & (THREAD_TERMINATE | THREAD_SET_CONTEXT) == 0
  {
    Level1OpensReadOnly(evs, i, j, desired, if process then PROCESS_READ_ACCESS else THREAD_READ_ACCESS);
  }

  // ----- verification -----

  /** With StateMutex free, the outcome fields agree and a success has all four fields from one call. */
  lemma VerificationConsistent(evs: seq<Event>)
    requires Run(evs).mutex == None
    ensures var s := Run(evs); s.c.performed ==> s.c.succeeded == NtSuccess(s.c.status)
    ensures var s := Run(evs);
            s.c.succeeded ==> exists q :: q in s.h.entered && Passes(q) && Matches(s.c, q)
  {
    Invariant(evs);
  }

  predicate Mixes(a: Query, b: Query, c: Query, routine: nat)
  {
    Passes(a) && Passes(b) && Passes(c) && a.base <= routine < b.base + c.size
  }

  /** Every value a successful retrieval tested against was written by some verification that passed. */
  lemma GrantProvenance(evs: seq<Event>, i: nat)
    requires i < |Run(evs).h.grants|
    ensures var s := Run(evs); var r := s.h.grants[i].request;
            && r.routine != 0 && ProcessFrom(s.h, r.process) && PidFrom(s.h, r.pid)
            && exists a, b, c :: a in s.h.entered && b in s.h.entered && c in s.h.entered && Mixes(a, b, c, r.routine)
  {
    var s := Run(evs);
    Invariant(evs);
    var g := s.h.grants[i];
    assert GrantOk(s, g);
    MixedBounds(s.h, g);
  }

  lemma MixedBounds(h: History, g: Grant)
    requires SeenFrom(h, g.seen) && Admitted(g.request, g.seen)
    requires forall q :: q in h.entered ==> SystemAnswer(q)
    ensures exists a, b, c :: a in h.entered && b in h.entered && c in h.entered && Mixes(a, b, c, g.request.routine)
  {
    var a :| a in h.entered && Passes(a) && a.base == g.seen.low;
    var b :| b in h.entered && Passes(b) && b.base == g.seen.highBase;
    var c :| c in h.entered && Passes(c) && c.size == g.seen.highSize;
    assert Mixes(a, b, c, g.request.routine);
  }

  /** A routine inside the image region that one successful verification inspected. */
  predicate InsideOne(q: Query, r: Request)
  {
    && Passes(q) && q.isImage && q.isCommitted && q.sameFile
    && r.process == q.process && r.pid == q.pid && q.base <= r.routine < q.base + q.size
  }

  /** If a single call got past the test on line 258, every key went to a routine in its region. */
  lemma OneEntryOneRange(evs: seq<Event>, i: nat)
    requires i < |Run(evs).h.grants| && |Run(evs).h.entered| <= 1
    ensures |Run(evs).h.entered| == 1 && InsideOne(Run(evs).h.entered[0], Run(evs).h.grants[i].request)
  {
    var s := Run(evs);
    Invariant(evs);
    GrantProvenance(evs, i);
    assert GrantOk(s, s.h.grants[i]);
    assert s.h.entered == [s.h.entered[0]];
  }

  // ----- calls that do not overlap -----

  ghost predicate NobodyVerifies(s: State) { forall t: Tid :: !At(s, t).Verifying? }

  predicate StartsVerify(e: Event) { e.Begin? && e.call.Verify? }

  /** No verification starts while another is under way. */
  ghost predicate Serial(evs: seq<Event>)
  {
    forall i :: 0 <= i < |evs| && StartsVerify(evs[i]) ==> NobodyVerifies(Run(evs[..i]))
  }

  predicate SerialThread(s: State, pc: Pc)
  {
    pc.Verifying? ==>
      && (pc.line > 258 ==> s.h.entered == [pc.q])
      && (258 < pc.line <= 314 ==> !s.c.performed)
      && (pc.line <= 258 && !s.c.performed ==> s.h.entered == [])
      && (258 < pc.line <= 313 ==> !s.h.published)
  }

  ghost predicate SerialInv(s: State)
  {
    && |s.h.entered| <= 1
    && (forall t: Tid, u: Tid :: At(s, t).Verifying? && At(s, u).Verifying? ==> t == u)
    && (forall t: Tid :: SerialThread(s, At(s, t)))
    && (NobodyVerifies(s) && !s.c.performed ==> s.h.entered == [])
    && (s.h.published ==> |s.h.entered| == 1 && s.c.succeeded && Matches(s.c, s.h.entered[0]))
  }

  lemma {:induction false} SerialInvariant(evs: seq<Event>)
    requires Serial(evs)
    ensures SerialInv(Run(evs))
  {
    if evs != [] {
      var init := evs[..|evs| - 1];
      SerialPrefix(evs, |evs| - 1);
      SerialInvariant(init);
      Invariant(init);
      SerialNext(Run(init), evs[|evs| - 1]);
    }
  }

  lemma SerialNext(s: State, e: Event)
    requires Inv(s) && SerialInv(s) && (StartsVerify(e) ==> NobodyVerifies(s))
    ensures SerialInv(Next(s, e))
  {
    var s' := Next(s, e);
    assert SerialThread(s, At(s, e.t)) && LocalOk(s, At(s, e.t));
    if s' != s {
      NextGood(s, e);
      if At(s, e.t).Verifying? {
        SerialVerify(s, s', e.t, At(s, e.t).line, At(s, e.t).q);
      } else {
        SerialOther(s, s', e);
      }
    }
  }

  /** A step outside KphVerifyClient, or the start of the only verification under way. */
  lemma SerialOther(s: State, s': State, e: Event)
    requires SerialInv(s) && s' == Next(s, e) && Moves(s, s', e.t) && !At(s, e.t).Verifying?
    requires StartsVerify(e) ==> NobodyVerifies(s)
    ensures SerialInv(s')
  {
    LeavesVerification(s, e);
    SerialUnmoved(s, s', e.t);
  }

  /** Only KphVerifyClient writes what verification reports. */
  lemma LeavesVerification(s: State, e: Event)
    requires !At(s, e.t).Verifying?
    ensures var s' := Next(s, e);
            && s'.c == s.c.(keysGenerated := s'.c.keysGenerated, l1 := s'.c.l1, l2 := s'.c.l2)
            && s'.h.entered == s.h.entered && s'.h.published == s.h.published
            && (At(s', e.t).Verifying? ==> StartsVerify(e) && At(s', e.t).line == 258)
  {
    if e.Step? {
      match At(s, e.t)
      case Idle =>
      case Retrieving(line, r, seen) =>
        assert Next(s, e) == RetrieveStep(s, e.t, line, r, seen);
      case Generating(line, r, seen, k1, k2) => GenerationLeaves(s, e, line, r, seen, k1, k2);
      case Validating(line, v) =>
        assert Next(s, e) == ValidateStep(s, e.t, line, v);
    }
  }

  lemma GenerationLeaves(s: State, e: Event, line: nat, r: Request, seen: Seen, k1: nat, k2: nat)
    requires e.Step? && At(s, e.t) == Generating(line, r, seen, k1, k2)
    ensures var s' := Next(s, e);
            && s'.c == s.c.(keysGenerated := s'.c.keysGenerated, l1 := s'.c.l1, l2 := s'.c.l2)
            && s'.h.entered == s.h.entered && s'.h.published == s.h.published && !At(s', e.t).Verifying?
  {
    assert Next(s, e) == GenerateStep(s, e.t, line, r, seen, k1, k2, e.draw);
  }

  lemma SerialUnmoved(s: State, s': State, t: Tid)
    requires SerialInv(s) && Moves(s, s', t) && !At(s, t).Verifying?
    requires s'.c == s.c.(keysGenerated := s'.c.keysGenerated, l1 := s'.c.l1, l2 := s'.c.l2)
    requires s'.h.entered == s.h.entered && s'.h.published == s.h.published
    requires At(s', t).Verifying? ==> At(s', t).line == 258 && NobodyVerifies(s)
    ensures SerialInv(s')
  {
    forall u: Tid ensures SerialThread(s', At(s', u)) {
      if u != t { assert SerialThread(s, At(s, u)); }
    }
    forall u: Tid, w: Tid | At(s', u).Verifying? && At(s', w).Verifying? ensures u == w {
      assert u != t ==> At(s', u) == At(s, u);
      assert w != t ==> At(s', w) == At(s, w);
    }
    if NobodyVerifies(s') {
      forall u: Tid ensures !At(s, u).Verifying? {
        if u != t { assert !At(s', u).Verifying?; }
      }
    }
  }

  lemma SerialVerify(s: State, s': State, t: Tid, line: nat, q: Query)
    requires SerialInv(s) && Moves(s, s', t) && At(s, t) == Verifying(line, q) && s' == VerifyStep(s, t, line, q) != s
    requires SerialThread(s, Verifying(line, q)) && (line > 301 ==> Held(s, Verifying(line, q)))
    ensures SerialInv(s')
  {
    forall u: Tid | u != t ensures !At(s', u).Verifying? {
      assert At(s', u) == At(s, u);
    }
    assert At(s', t).Verifying? || s'.c.performed;
  }

  /** Without overlap at most one call is ever past the test on line 258. */
  lemma SerialOneEntry(evs: seq<Event>)
    requires Serial(evs)
    ensures |Run(evs).h.entered| <= 1
  {
    SerialInvariant(evs);
  }

  /** Without overlap every key went to a routine inside the one verified region. */
  lemma SerialGrantsInside(evs: seq<Event>, i: nat)
    requires Serial(evs) && i < |Run(evs).h.grants|
    ensures |Run(evs).h.entered| == 1 && InsideOne(Run(evs).h.entered[0], Run(evs).h.grants[i].request)
  {
    SerialOneEntry(evs);
    OneEntryOneRange(evs, i);
  }

  lemma SerialPrefix(evs: seq<Event>, n: nat)
    requires Serial(evs) && n <= |evs|
    ensures Serial(evs[..n])
  {
    forall i | 0 <= i < n && StartsVerify(evs[..n][i]) ensures NobodyVerifies(Run(evs[..n][..i])) {
      assert evs[..n][..i] == evs[..i] && evs[..n][i] == evs[i];
    }
  }

  /** Without overlap the four Verified fields, once a success is visible, are never written again. */
  lemma SerialWriteOnce(evs: seq<Event>, n: nat)
    requires Serial(evs) && n <= |evs| && Run(evs[..n]).c.succeeded
    ensures var c, c' := Run(evs[..n]).c, Run(evs).c;
            c'.succeeded && c'.process == c.process && c'.pid == c.pid && c'.base == c.base && c'.size == c.size
  {
    SerialPrefix(evs, n);
    SerialInvariant(evs[..n]);
    Invariant(evs[..n]);
    SerialInvariant(evs);
    RunGrows(evs, n);
  }
}
