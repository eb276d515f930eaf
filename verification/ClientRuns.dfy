/**
 Interleavings built step by step: verifications that all get past line 258 before
 any of them finishes, and one retrieval that reads between their writes.
 */
module ClientRuns {
  import opened Common
  import opened ClientProtocol
  import opened ClientInvariant
  import opened ClientTheorems

  /** The run hands a key to `r`. */
  predicate Granted(s: State, r: Request) { exists n :: 0 <= n < |s.h.grants| && s.h.grants[n].request == r }

  /** Values that let a retrieval through: process and pid, low base, high base and size. */
  predicate Admits(r: Request, process: nat, pid: nat, low: nat, high: nat, size: nat)
  {
    && (r.level == 1 || r.level == 2) && r.routine != 0
    && r.process == process && r.pid == pid && low <= r.routine < high + size
  }

  predicate Usable(q: Query) { Passes(q) && SystemAnswer(q) }

  lemma Extend(evs: seq<Event>, e: Event) returns (evs': seq<Event>)
    ensures Run(evs') == Next(Run(evs), e)
  {
    evs' := evs + [e];
    assert evs'[..|evs|] == evs;
  }

  /** Thread `t` takes one step that no draw influences. */
  lemma Advance(evs: seq<Event>, t: Tid) returns (evs': seq<Event>)
    ensures Run(evs') == Next(Run(evs), Step(t, 0))
  {
    evs' := Extend(evs, Step(t, 0));
  }

  /** From line 301 to line 308: everything but the size is written. */
  lemma VerifyToSize(evs: seq<Event>, t: Tid, q: Query) returns (evs': seq<Event>)
    requires At(Run(evs), t) == Verifying(301, q) && Run(evs).mutex == None && Passes(q)
    ensures var s, s' := Run(evs), Run(evs');
            && s'.pcs == s.pcs[t := Verifying(308, q)] && s'.mutex == Some(t) && s'.h == s.h
            && s'.c == s.c.(process := q.process, pid := q.pid, base := q.base)
  {
    evs' := Advance(evs, t);
    evs' := Advance(evs', t);
    evs' := Advance(evs', t);
    evs' := Advance(evs', t);
  }

  lemma VerifySize(evs: seq<Event>, t: Tid, q: Query) returns (evs': seq<Event>)
    requires At(Run(evs), t) == Verifying(308, q)
    ensures var s := Run(evs); Run(evs') == s.(pcs := s.pcs[t := Verifying(311, q)], c := s.c.(size := q.size))
  {
    evs' := Advance(evs, t);
  }

  /** From line 311 to the release of the mutex. */
  lemma VerifyFinish(evs: seq<Event>, t: Tid, q: Query) returns (evs': seq<Event>)
    requires At(Run(evs), t) == Verifying(311, q) && Passes(q)
    ensures var s, s' := Run(evs), Run(evs');
            && s'.pcs == s.pcs[t := Idle] && s'.mutex == None && s'.h == s.h.(published := true)
            && s'.c == s.c.(status := VerifyStatus(q), succeeded := true, performed := true)
  {
    evs' := Advance(evs, t);
    evs' := Advance(evs', t);
    evs' := VerifyRelease(evs', t, q);
  }

  lemma VerifyRelease(evs: seq<Event>, t: Tid, q: Query) returns (evs': seq<Event>)
    requires At(Run(evs), t) == Verifying(314, q)
    ensures var s := Run(evs);
            Run(evs') == s.(pcs := s.pcs[t := Idle], mutex := None, c := s.c.(performed := true))
  {
    evs' := Advance(evs, t);
    evs' := Advance(evs', t);
    assert Run(evs').pcs == Run(evs).pcs[t := Idle];
  }

  /** Thread `t` starts to verify and passes the test on line 258. */
  lemma Enter(evs: seq<Event>, t: Tid, q: Query) returns (evs': seq<Event>)
    requires At(Run(evs), t) == Idle && SystemAnswer(q) && !Run(evs).c.performed
    ensures var s := Run(evs);
            Run(evs') == s.(h := s.h.(entered := s.h.entered + [q]), pcs := s.pcs[t := Verifying(301, q)])
  {
    evs' := Extend(evs, Begin(t, Verify(q)));
    assert At(Run(evs'), t) == Verifying(258, q);
    evs' := Advance(evs', t);
    assert Run(evs').pcs == Run(evs).pcs[t := Verifying(301, q)];
  }

  /** Thread `t` writes all the Verified fields and publishes the success. */
  lemma VerifyWhole(evs: seq<Event>, t: Tid, q: Query) returns (evs': seq<Event>)
    requires At(Run(evs), t) == Verifying(301, q) && Run(evs).mutex == None && Passes(q)
    ensures var s, s' := Run(evs), Run(evs');
            && s'.pcs == s.pcs[t := Idle] && s'.mutex == None && s'.h == s.h.(published := true)
            && Matches(s'.c, q) && s'.c.succeeded && s'.c.keysGenerated == s.c.keysGenerated
  {
    evs' := VerifyToSize(evs, t, q);
    evs' := VerifySize(evs', t, q);
    evs' := VerifyFinish(evs', t, q);
  }

  /** Thread `t` draws two distinct keys and takes the mutex. */
  lemma DrawAndLock(evs: seq<Event>, t: Tid, r: Request, seen: Seen) returns (evs': seq<Event>)
    requires At(Run(evs), t) == Generating(373, r, seen, 0, 0) && Run(evs).mutex == None && !Run(evs).c.keysGenerated
    ensures At(Run(evs'), t) == Generating(386, r, seen, MakeKey(0), MakeKey(1))
    ensures Run(evs').c == Run(evs).c && Run(evs').h == Run(evs).h
  {
    evs' := Advance(evs, t);
    evs' := Advance(evs', t);
    evs' := Extend(evs', Step(t, 1));
    evs' := Advance(evs', t);
  }

  /** Thread `t` stores its keys, releases the mutex and hands one out. */
  lemma StoreAndHand(evs: seq<Event>, t: Tid, r: Request, seen: Seen, k1: nat, k2: nat) returns (evs': seq<Event>)
    requires At(Run(evs), t) == Generating(386, r, seen, k1, k2) && !Run(evs).c.keysGenerated
    requires r.level == 1 || r.level == 2
    ensures Run(evs').h.entered == Run(evs).h.entered
    ensures |Run(evs').h.grants| > 0 && Run(evs').h.grants[|Run(evs').h.grants| - 1].request == r
  {
    evs' := Advance(evs, t);
    evs' := Advance(evs', t);
    evs' := Advance(evs', t);
    evs' := ReleaseAndHand(evs', t, r, seen, k1, k2);
  }

  lemma ReleaseAndHand(evs: seq<Event>, t: Tid, r: Request, seen: Seen, k1: nat, k2: nat) returns (evs': seq<Event>)
    requires At(Run(evs), t) == Generating(391, r, seen, k1, k2) && (r.level == 1 || r.level == 2)
    ensures Run(evs').h.entered == Run(evs).h.entered
    ensures |Run(evs').h.grants| > 0 && Run(evs').h.grants[|Run(evs').h.grants| - 1].request == r
  {
    evs' := Advance(evs, t);
    evs' := Advance(evs', t);
    evs' := Advance(evs', t);
  }

  /** Five verifications past line 258, and nothing else. */
  lemma EnterAll(p: Query, i: Query, a: Query, b: Query, c: Query) returns (evs: seq<Event>)
    requires SystemAnswer(p) && SystemAnswer(i) && SystemAnswer(a) && SystemAnswer(b) && SystemAnswer(c)
    ensures var s := Run(evs);
            && s.h.entered == [p, i, a, b, c] && s.mutex == None && !s.c.keysGenerated
            && s.pcs == map[1 := Verifying(301, p), 2 := Verifying(301, i), 3 := Verifying(301, a),
                            4 := Verifying(301, b), 5 := Verifying(301, c)]
  {
    evs := Enter([], 1, p);
    evs := Enter(evs, 2, i);
    evs := Enter(evs, 3, a);
    evs := Enter(evs, 4, b);
    evs := Enter(evs, 5, c);
  }

  /** Thread `t` verifies `q` to the end, and thread 6 then takes one step. */
  lemma SupplyOne(evs: seq<Event>, t: Tid, q: Query) returns (evs': seq<Event>)
    requires At(Run(evs), t) == Verifying(301, q) && Run(evs).mutex == None && Passes(q) && t != 6
    requires At(Run(evs), 6).Retrieving? && 413 <= At(Run(evs), 6).line <= 425
    ensures var s, s' := Run(evs), Run(evs'); var pc := At(s, 6);
            && s'.mutex == None && s'.h == s.h.(published := true) && s'.c.keysGenerated == s.c.keysGenerated
            && s'.pcs == s.pcs[t := Idle][6 := ReadFrom(q, pc.line, pc.r, pc.seen)]
  {
    evs' := VerifyWhole(evs, t, q);
    evs' := Advance(evs', 6);
  }

  /** One read of a retrieval while the Verified fields are those of `q`. */
  function ReadFrom(q: Query, line: nat, r: Request, seen: Seen): Pc
  {
    var c := Init().c.(process := q.process, pid := q.pid, base := q.base, size := q.size);
    var s := Init().(c := c, pcs := map[6 := Retrieving(line, r, seen)]);
    At(RetrieveStep(s, 6, line, r, seen), 6)
  }

  /** Each read of the retrieval by thread 6 happens right after the call that supplies its value. */
  lemma Assemble(p: Query, i: Query, a: Query, b: Query, c: Query, r: Request) returns (evs: seq<Event>)
    requires Usable(p) && Usable(i) && Usable(a) && Usable(b) && Usable(c)
    requires Admits(r, p.process, i.pid, a.base, b.base, c.size)
    ensures Run(evs).h.entered == [p, i, a, b, c] && Granted(Run(evs), r)
  {
    evs := EnterAll(p, i, a, b, c);
    evs := BeginRetrieval(evs, p, r);
    evs := ReadLow(evs, i, a, r, p.process);
    evs := ReadHigh(evs, b, c, r, Seen(p.process, i.pid, a.base, 0, 0));
    evs := GenerateAndHand(evs, 6, r, Seen(p.process, i.pid, a.base, b.base, c.size));
  }

  /** Threads 2 and 3 verify, and thread 6 reads pid and low base after them. */
  lemma ReadLow(evs: seq<Event>, i: Query, a: Query, r: Request, process: nat) returns (evs': seq<Event>)
    requires At(Run(evs), 2) == Verifying(301, i) && At(Run(evs), 3) == Verifying(301, a) && Run(evs).mutex == None
    requires Passes(i) && Passes(a) && r.pid == i.pid && r.routine != 0 && a.base <= r.routine
    requires At(Run(evs), 6) == Retrieving(414, r, Seen(process, 0, 0, 0, 0))
    ensures var s, s' := Run(evs), Run(evs');
            && s'.mutex == None && s'.h == s.h.(published := true) && s'.c.keysGenerated == s.c.keysGenerated
            && At(s', 4) == At(s, 4) && At(s', 5) == At(s, 5)
            && At(s', 6) == Retrieving(424, r, Seen(process, i.pid, a.base, 0, 0))
  {
    evs' := SupplyOne(evs, 2, i);
    assert At(Run(evs'), 6) == Retrieving(423, r, Seen(process, i.pid, 0, 0, 0));
    evs' := SupplyOne(evs', 3, a);
  }

  /** Threads 4 and 5 verify, and thread 6 reads high base and size after them. */
  lemma ReadHigh(evs: seq<Event>, b: Query, c: Query, r: Request, seen: Seen) returns (evs': seq<Event>)
    requires At(Run(evs), 4) == Verifying(301, b) && At(Run(evs), 5) == Verifying(301, c) && Run(evs).mutex == None
    requires Passes(b) && Passes(c) && r.routine < RangeEnd(b.base, c.size) && At(Run(evs), 6) == Retrieving(424, r, seen)
    ensures var s, s' := Run(evs), Run(evs');
            && s'.mutex == None && s'.h == s.h.(published := true) && s'.c.keysGenerated == s.c.keysGenerated
            && At(s', 6) == Generating(373, r, seen.(highBase := b.base, highSize := c.size), 0, 0)
  {
    evs' := SupplyOne(evs, 4, b);
    assert At(Run(evs'), 6) == Retrieving(425, r, seen.(highBase := b.base));
    evs' := SupplyOne(evs', 5, c);
  }

  lemma GenerateAndHand(evs: seq<Event>, t: Tid, r: Request, seen: Seen) returns (evs': seq<Event>)
    requires At(Run(evs), t) == Generating(373, r, seen, 0, 0) && Run(evs).mutex == None && !Run(evs).c.keysGenerated
    requires r.level == 1 || r.level == 2
    ensures Run(evs').h.entered == Run(evs).h.entered
    ensures Granted(Run(evs'), r)
  {
    evs' := DrawAndLock(evs, t, r, seen);
    evs' := StoreAndHand(evs', t, r, seen, MakeKey(0), MakeKey(1));
  }

  /** Thread 1 verifies `p`; thread 6 sees the success and then the process. */
  lemma BeginRetrieval(evs: seq<Event>, p: Query, r: Request) returns (evs': seq<Event>)
    requires At(Run(evs), 1) == Verifying(301, p) && Run(evs).mutex == None && Passes(p) && 6 !in Run(evs).pcs
    requires r.process == p.process
    ensures var s, s' := Run(evs), Run(evs');
            && s'.mutex == None && s'.h == s.h.(published := true) && s'.c.keysGenerated == s.c.keysGenerated
            && s'.pcs == s.pcs[1 := Idle][6 := Retrieving(414, r, Seen(p.process, 0, 0, 0, 0))]
  {
    evs' := VerifyWhole(evs, 1, p);
    evs' := Extend(evs', Begin(6, Retrieve(r)));
    evs' := Advance(evs', 6);
    evs' := Advance(evs', 6);
    assert Run(evs').pcs == Run(evs).pcs[1 := Idle][6 := Retrieving(414, r, Seen(p.process, 0, 0, 0, 0))];
  }

  // ----- runs that enter every call at most once -----

  /** Thread `t` takes the mutex and writes process and pid, but not yet the base. */
  lemma VerifyToBase(evs: seq<Event>, t: Tid, q: Query) returns (evs': seq<Event>)
    requires At(Run(evs), t) == Verifying(301, q) && Run(evs).mutex == None && Passes(q)
    ensures var s, s' := Run(evs), Run(evs');
            && s'.pcs == s.pcs[t := Verifying(307, q)] && s'.mutex == Some(t) && s'.h == s.h
            && s'.c == s.c.(process := q.process, pid := q.pid)
  {
    evs' := Advance(evs, t);
    evs' := Advance(evs', t);
    evs' := Advance(evs', t);
  }

  /** From the size on: the rest of the call. */
  lemma VerifyRest(evs: seq<Event>, t: Tid, q: Query) returns (evs': seq<Event>)
    requires At(Run(evs), t) == Verifying(308, q) && Passes(q)
    ensures var s, s' := Run(evs), Run(evs');
            && s'.pcs == s.pcs[t := Idle] && s'.mutex == None && s'.h == s.h.(published := true)
            && s'.c.base == s.c.base && s'.c.size == q.size && s'.c.keysGenerated == s.c.keysGenerated
  {
    evs' := VerifySize(evs, t, q);
    evs' := VerifyFinish(evs', t, q);
  }

  lemma VerifyBase(evs: seq<Event>, t: Tid, q: Query) returns (evs': seq<Event>)
    requires At(Run(evs), t) == Verifying(307, q)
    ensures var s := Run(evs); Run(evs') == s.(pcs := s.pcs[t := Verifying(308, q)], c := s.c.(base := q.base))
  {
    evs' := Advance(evs, t);
  }

  /** Thread 6 sees the success and stops before it reads the process. */
  lemma StartReading(evs: seq<Event>, r: Request) returns (evs': seq<Event>)
    requires 6 !in Run(evs).pcs && Run(evs).c.succeeded
    ensures var s := Run(evs); Run(evs') == s.(pcs := s.pcs[6 := Retrieving(413, r, Seen(0, 0, 0, 0, 0))])
  {
    evs' := Extend(evs, Begin(6, Retrieve(r)));
    evs' := Advance(evs', 6);
    assert Run(evs').pcs == Run(evs).pcs[6 := Retrieving(413, r, Seen(0, 0, 0, 0, 0))];
  }

  /** Thread 6 reads process, pid and low base. */
  lemma ReadFront(evs: seq<Event>, r: Request) returns (evs': seq<Event>)
    requires At(Run(evs), 6) == Retrieving(413, r, Seen(0, 0, 0, 0, 0))
    requires var c := Run(evs).c; r.process == c.process && r.pid == c.pid && r.routine != 0 && c.base <= r.routine
    ensures var s := Run(evs);
            Run(evs') == s.(pcs := s.pcs[6 := Retrieving(424, r, Seen(s.c.process, s.c.pid, s.c.base, 0, 0))])
  {
    evs' := Advance(evs, 6);
    evs' := Advance(evs', 6);
    evs' := Advance(evs', 6);
    var s := Run(evs);
    assert Run(evs').pcs == s.pcs[6 := Retrieving(424, r, Seen(s.c.process, s.c.pid, s.c.base, 0, 0))];
  }

  lemma ReadHighBase(evs: seq<Event>, r: Request, seen: Seen) returns (evs': seq<Event>)
    requires At(Run(evs), 6) == Retrieving(424, r, seen)
    ensures var s := Run(evs); Run(evs') == s.(pcs := s.pcs[6 := Retrieving(425, r, seen.(highBase := s.c.base))])
  {
    evs' := Advance(evs, 6);
  }

  lemma ReadSize(evs: seq<Event>, r: Request, seen: Seen) returns (evs': seq<Event>)
    requires At(Run(evs), 6) == Retrieving(425, r, seen) && r.routine < RangeEnd(seen.highBase, Run(evs).c.size)
    ensures var s := Run(evs);
            Run(evs') == s.(pcs := s.pcs[6 := Generating(373, r, seen.(highSize := s.c.size), 0, 0)])
  {
    evs' := Advance(evs, 6);
  }

  /** Thread 1 verifies `p` to the end, and thread 6 reads process, pid and low base from it. */
  lemma FrontFrom(evs: seq<Event>, p: Query, r: Request) returns (evs': seq<Event>)
    requires At(Run(evs), 1) == Verifying(301, p) && Run(evs).mutex == None && Passes(p) && 6 !in Run(evs).pcs
    requires r.process == p.process && r.pid == p.pid && r.routine != 0 && p.base <= r.routine
    ensures var s, s' := Run(evs), Run(evs');
            && s'.pcs == s.pcs[1 := Idle][6 := Retrieving(424, r, Seen(p.process, p.pid, p.base, 0, 0))]
            && s'.mutex == None && s'.h == s.h.(published := true) && s'.c.keysGenerated == s.c.keysGenerated
            && s'.c.base == p.base && s'.c.size == p.size
  {
    evs' := VerifyWhole(evs, 1, p);
    evs' := StartReading(evs', r);
    evs' := ReadFront(evs', r);
    assert Run(evs').pcs == Run(evs).pcs[1 := Idle][6 := Retrieving(424, r, Seen(p.process, p.pid, p.base, 0, 0))];
  }

  /** All from `p` but the size, which the call `c` may have written in between. */
  lemma SizeFromOther(p: Query, c: Query, r: Request) returns (evs: seq<Event>)
    requires Usable(p) && Usable(c) && Admits(r, p.process, p.pid, p.base, p.base, c.size)
    ensures Run(evs).h.entered == (if c == p then [p] else [p, c]) && Granted(Run(evs), r)
  {
    evs := Enter([], 1, p);
    if c != p { evs := Enter(evs, 2, c); }
    evs := FrontFrom(evs, p, r);
    var seen := Seen(p.process, p.pid, p.base, 0, 0);
    evs := ReadHighBase(evs, r, seen);
    evs := SizeAfter(evs, p, c, r, seen.(highBase := p.base));
    evs := GenerateAndHand(evs, 6, r, seen.(highBase := p.base, highSize := c.size));
  }

  /** The size of `p` is still there, or that of `c` is written first. */
  lemma SizeAfter(evs: seq<Event>, p: Query, c: Query, r: Request, seen: Seen) returns (evs': seq<Event>)
    requires At(Run(evs), 6) == Retrieving(425, r, seen) && Run(evs).c.size == p.size && Run(evs).mutex == None
    requires Passes(c) && (c != p ==> At(Run(evs), 2) == Verifying(301, c)) && r.routine < RangeEnd(seen.highBase, c.size)
    ensures var s, s' := Run(evs), Run(evs');
            && At(s', 6) == Generating(373, r, seen.(highSize := c.size), 0, 0)
            && s'.mutex == None && s'.h.entered == s.h.entered && s'.c.keysGenerated == s.c.keysGenerated
  {
    evs' := evs;
    if c != p { evs' := VerifyWhole(evs, 2, c); }
    evs' := ReadSize(evs', r, seen);
  }

  /** The high base comes from `b`, read while `b` has not yet written its size. */
  lemma HighFromOther(p: Query, b: Query, c: Query, r: Request) returns (evs: seq<Event>)
    requires Usable(p) && Usable(b) && Usable(c) && b != p && Admits(r, p.process, p.pid, p.base, b.base, c.size)
    ensures Run(evs).h.entered == (if c == p || c == b then [p, b] else [p, b, c]) && Granted(Run(evs), r)
  {
    evs := Enter([], 1, p);
    evs := Enter(evs, 2, b);
    if c != p && c != b { evs := Enter(evs, 3, c); }
    evs := FrontFrom(evs, p, r);
    evs := ReadHighFrom(evs, b, r, Seen(p.process, p.pid, p.base, 0, 0));
    evs := SizeFrom(evs, p, b, c, r, Seen(p.process, p.pid, p.base, b.base, 0));
    evs := GenerateAndHand(evs, 6, r, Seen(p.process, p.pid, p.base, b.base, c.size));
  }

  /** Thread 2 verifies `b` up to its size, and thread 6 reads the high base. */
  lemma ReadHighFrom(evs: seq<Event>, b: Query, r: Request, seen: Seen) returns (evs': seq<Event>)
    requires At(Run(evs), 2) == Verifying(301, b) && Run(evs).mutex == None && Passes(b)
    requires At(Run(evs), 6) == Retrieving(424, r, seen)
    ensures var s, s' := Run(evs), Run(evs');
            && s'.pcs == s.pcs[2 := Verifying(308, b)][6 := Retrieving(425, r, seen.(highBase := b.base))]
            && s'.mutex == Some(2) && s'.h == s.h && s'.c.size == s.c.size && s'.c.keysGenerated == s.c.keysGenerated
  {
    evs' := VerifyToSize(evs, 2, b);
    evs' := ReadHighBase(evs', r, seen);
  }

  /** The size of `p` is still there, that of `b` comes next, and that of `c` after both. */
  lemma SizeFrom(evs: seq<Event>, p: Query, b: Query, c: Query, r: Request, seen: Seen) returns (evs': seq<Event>)
    requires At(Run(evs), 2) == Verifying(308, b) && At(Run(evs), 6) == Retrieving(425, r, seen)
    requires Passes(b) && Passes(c) && Run(evs).c.size == p.size
    requires c != p && c != b ==> At(Run(evs), 3) == Verifying(301, c)
    requires r.routine < RangeEnd(seen.highBase, c.size)
    ensures var s, s' := Run(evs), Run(evs');
            && At(s', 6) == Generating(373, r, seen.(highSize := c.size), 0, 0)
            && s'.mutex == None && s'.h.entered == s.h.entered && s'.c.keysGenerated == s.c.keysGenerated
  {
    if c == p {
      evs' := ReadSize(evs, r, seen);
      evs' := VerifyRest(evs', 2, b);
    } else {
      evs' := VerifyRest(evs, 2, b);
      if c != b { evs' := VerifyWhole(evs', 3, c); }
      evs' := ReadSize(evs', r, seen);
    }
  }

  /** The low base comes from `a`; `p` has written process and pid but not yet its base. */
  lemma LowFromOther(a: Query, p: Query, r: Request) returns (evs: seq<Event>)
    requires Usable(p) && Usable(a) && Admits(r, p.process, p.pid, a.base, p.base, p.size)
    ensures Run(evs).h.entered == [a, p] && Granted(Run(evs), r)
  {
    evs := Enter([], 1, a);
    evs := Enter(evs, 2, p);
    evs := ReadLowFrom(evs, a, p, r);
    evs := VerifyBase(evs, 2, p);
    evs := ReadHighBase(evs, r, Seen(p.process, p.pid, a.base, 0, 0));
    evs := VerifyRest(evs, 2, p);
    evs := ReadSize(evs, r, Seen(p.process, p.pid, a.base, p.base, 0));
    evs := GenerateAndHand(evs, 6, r, Seen(p.process, p.pid, a.base, p.base, p.size));
  }

  lemma ReadLowFrom(evs: seq<Event>, a: Query, p: Query, r: Request) returns (evs': seq<Event>)
    requires At(Run(evs), 1) == Verifying(301, a) && At(Run(evs), 2) == Verifying(301, p) && Run(evs).mutex == None
    requires Passes(a) && Passes(p) && 6 !in Run(evs).pcs
    requires r.process == p.process && r.pid == p.pid && r.routine != 0 && a.base <= r.routine
    ensures var s, s' := Run(evs), Run(evs');
            && At(s', 2) == Verifying(307, p) && At(s', 6) == Retrieving(424, r, Seen(p.process, p.pid, a.base, 0, 0))
            && s'.mutex == Some(2) && s'.h.entered == s.h.entered && s'.c.keysGenerated == s.c.keysGenerated
  {
    evs' := VerifyWhole(evs, 1, a);
    evs' := StartReading(evs', r);
    evs' := VerifyToBase(evs', 2, p);
    evs' := ReadFront(evs', r);
  }

  predicate Distinct(qs: seq<Query>) { forall i, j :: 0 <= i < j < |qs| ==> qs[i] != qs[j] }

  /**
   No call has to be entered twice: if the routine is below the base of `p`, the low
   base can come from `a` alone, and otherwise from `p` itself.
   */
  lemma AssembleOnce(p: Query, a: Query, b: Query, c: Query, r: Request) returns (evs: seq<Event>)
    requires Usable(p) && Usable(a) && Usable(b) && Usable(c) && Admits(r, p.process, p.pid, a.base, b.base, c.size)
    ensures Granted(Run(evs), r) && Distinct(Run(evs).h.entered)
    ensures forall q :: q in Run(evs).h.entered ==> q in [p, a, b, c]
  {
    if r.routine < p.base {
      evs := LowFromOther(a, p, r);
    } else if b == p {
      evs := SizeFromOther(p, c, r);
    } else {
      evs := HighFromOther(p, b, c, r);
    }
  }
}
