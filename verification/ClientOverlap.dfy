/**
 What overlapping verifications allow. Calls that all get past line 258 write the
 Verified fields one after the other, and a retrieval reads each field without the
 mutex, so it may combine values of different calls. Which requests can obtain a
 key is characterised exactly, for any number of calls from any processes.
 */
module ClientOverlap {
  import opened Common
  import opened ClientProtocol
  import opened ClientInvariant
  import opened ClientTheorems
  import opened ClientRuns

  /** Some interleaving that verifies only calls of the list, each as often as it likes, hands a key to `r`. */
  ghost predicate Reachable(calls: seq<Query>, r: Request) { exists evs :: Grants(evs, calls, r) }

  ghost predicate Grants(evs: seq<Event>, calls: seq<Query>, r: Request)
  {
    Granted(Run(evs), r) && forall q :: q in Run(evs).h.entered ==> q in calls
  }

  /** The same if every call of the list is made at most once. */
  ghost predicate ReachableOnce(calls: seq<Query>, r: Request) { exists evs :: GrantsOnce(evs, calls, r) }

  ghost predicate GrantsOnce(evs: seq<Event>, calls: seq<Query>, r: Request)
  {
    Granted(Run(evs), r) && multiset(Run(evs).h.entered) <= multiset(calls)
  }

  /** A call of the list that passes. */
  predicate Good(calls: seq<Query>, q: Query) { q in calls && Usable(q) }

  /** Five passing calls, not necessarily different, that supply what the five reads of a retrieval have to see. */
  predicate Supply(calls: seq<Query>, r: Request, p: Query, i: Query, a: Query, b: Query, c: Query)
  {
    && Good(calls, p) && Good(calls, i) && Good(calls, a) && Good(calls, b) && Good(calls, c)
    && Admits(r, p.process, i.pid, a.base, b.base, c.size)
  }

  /**
   A request can obtain a key exactly when its process, its process id, a base below
   its routine, and a base and a size that reach above it each come from some
   passing call.
   */
  lemma ReachableExact(calls: seq<Query>, r: Request)
    ensures Reachable(calls, r) <==> exists p, i, a, b, c :: Supply(calls, r, p, i, a, b, c)
  {
    if evs :| Grants(evs, calls, r) { SuppliedBy(evs, calls, r); }
    if p, i, a, b, c :| Supply(calls, r, p, i, a, b, c) {
      var evs := Assemble(p, i, a, b, c, r);
      assert Grants(evs, calls, r);
    }
  }

  lemma SuppliedBy(evs: seq<Event>, calls: seq<Query>, r: Request)
    requires Grants(evs, calls, r)
    ensures exists p, i, a, b, c :: Supply(calls, r, p, i, a, b, c)
  {
    var s := Run(evs);
    var n :| 0 <= n < |s.h.grants| && s.h.grants[n].request == r;
    GrantProvenance(evs, n);
    RetrievalsAgree(evs, n, n);
    Invariant(evs);
    var p :| p in s.h.entered && Passes(p) && p.process == r.process;
    var i :| i in s.h.entered && Passes(i) && i.pid == r.pid;
    var a, b, c :| a in s.h.entered && b in s.h.entered && c in s.h.entered && Mixes(a, b, c, r.routine);
    assert Supply(calls, r, p, i, a, b, c);
  }

  // ----- calls made once -----

  /** The process determines its id, in the calls and in the request. */
  ghost predicate Genuine(calls: seq<Query>, pidOf: nat -> nat) { forall q :: q in calls ==> q.pid == pidOf(q.process) }

  /** Making a call again gains nothing: what calls made any number of times allow, calls made once allow. */
  lemma OnceExact(calls: seq<Query>, pidOf: nat -> nat, r: Request)
    requires Genuine(calls, pidOf) && r.pid == pidOf(r.process)
    ensures ReachableOnce(calls, r) <==> Reachable(calls, r)
  {
    if evs :| GrantsOnce(evs, calls, r) { OnceIsReachable(evs, calls, r); }
    if Reachable(calls, r) {
      ReachableExact(calls, r);
      var p, i, a, b, c :| Supply(calls, r, p, i, a, b, c);
      SupplyOnce(calls, r, p, a, b, c);
    }
  }

  lemma OnceIsReachable(evs: seq<Event>, calls: seq<Query>, r: Request)
    requires GrantsOnce(evs, calls, r)
    ensures Reachable(calls, r)
  {
    forall q | q in Run(evs).h.entered ensures q in calls { assert q in multiset(Run(evs).h.entered); }
    assert Grants(evs, calls, r);
  }

  lemma SupplyOnce(calls: seq<Query>, r: Request, p: Query, a: Query, b: Query, c: Query)
    requires Supply(calls, r, p, p, a, b, c)
    ensures ReachableOnce(calls, r)
  {
    var evs := AssembleOnce(p, a, b, c, r);
    DistinctWithin(Run(evs).h.entered, calls);
    assert GrantsOnce(evs, calls, r);
  }

  lemma {:induction false} DistinctWithin(qs: seq<Query>, calls: seq<Query>)
    requires Distinct(qs) && forall q :: q in qs ==> q in calls
    ensures multiset(qs) <= multiset(calls)
  {
    forall q ensures multiset(qs)[q] <= multiset(calls)[q] {
      CountedOnce(qs, q);
      if q in qs { assert q in multiset(calls); }
    }
  }

  lemma {:induction false} CountedOnce(qs: seq<Query>, q: Query)
    requires Distinct(qs)
    ensures multiset(qs)[q] == if q in qs then 1 else 0
  {
    if qs != [] {
      var front, last := qs[..|qs| - 1], qs[|qs| - 1];
      CountedOnce(front, q);
      assert qs == front + [last];
      assert last !in front;
    }
  }

  // ----- when nothing escapes -----

  /** Every key goes to a routine inside a region that was verified for the process that gets it, in every interleaving. */
  ghost predicate NothingEscapes(calls: seq<Query>, pidOf: nat -> nat)
  {
    forall r: Request :: r.pid == pidOf(r.process) && Reachable(calls, r) ==>
      exists q :: q in calls && Good(calls, q) && InsideOne(q, r)
  }

  /** The passing calls of the list. */
  function Passing(calls: seq<Query>): (qs: seq<Query>)
    ensures forall q :: q in qs <==> Good(calls, q)
  {
    if calls == [] then []
    else
      var last := calls[|calls| - 1];
      assert calls == calls[..|calls| - 1] + [last];
      Passing(calls[..|calls| - 1]) + if Usable(last) then [last] else []
  }

  function LowestBase(qs: seq<Query>): (x: nat)
    requires qs != []
    ensures (forall q :: q in qs ==> x <= q.base) && exists q :: q in qs && q.base == x
  {
    if |qs| == 1 then assert qs[0] in qs; qs[0].base
    else
      var rest := LowestBase(qs[1..]);
      assert qs == [qs[0]] + qs[1..] && qs[0] in qs;
      if qs[0].base < rest then qs[0].base else rest
  }

  function HighestBase(qs: seq<Query>): (x: nat)
    requires qs != []
    ensures (forall q :: q in qs ==> q.base <= x) && exists q :: q in qs && q.base == x
  {
    if |qs| == 1 then assert qs[0] in qs; qs[0].base
    else
      var rest := HighestBase(qs[1..]);
      assert qs == [qs[0]] + qs[1..] && qs[0] in qs;
      if qs[0].base > rest then qs[0].base else rest
  }

  function LargestSize(qs: seq<Query>): (x: nat)
    requires qs != []
    ensures (forall q :: q in qs ==> q.size <= x) && exists q :: q in qs && q.size == x
  {
    if |qs| == 1 then assert qs[0] in qs; qs[0].size
    else
      var rest := LargestSize(qs[1..]);
      assert qs == [qs[0]] + qs[1..] && qs[0] in qs;
      if qs[0].size > rest then qs[0].size else rest
  }

  /** The address lies in a region that a passing call verified for this process. */
  predicate Held(calls: seq<Query>, process: nat, x: nat)
  {
    exists q :: q in calls && Good(calls, q) && q.process == process && q.base <= x < q.base + q.size
  }

  /** The addresses that some mixture of the passing calls lets through. */
  predicate Spanned(calls: seq<Query>, x: nat)
  {
    var qs := Passing(calls);
    qs != [] && x != 0 && LowestBase(qs) <= x < HighestBase(qs) + LargestSize(qs)
  }

  /** For each process with a passing call, its own regions cover everything that some mixture lets through. */
  ghost predicate Fills(calls: seq<Query>)
  {
    forall p: Query, x: nat :: Good(calls, p) && Spanned(calls, x) ==> Held(calls, p.process, x)
  }

  /**
   Nothing escapes exactly when, for each process with a passing call, its regions
   cover every address from the lowest base over all passing calls up to the highest
   base plus the largest size.
   */
  lemma NothingEscapesExact(calls: seq<Query>, pidOf: nat -> nat)
    requires Genuine(calls, pidOf)
    ensures NothingEscapes(calls, pidOf) <==> Fills(calls)
  {
    if NothingEscapes(calls, pidOf) {
      forall p: Query, x: nat | Good(calls, p) && Spanned(calls, x) ensures Held(calls, p.process, x) {
        Reaches(calls, p, x);
        var q :| q in calls && Good(calls, q) && InsideOne(q, Request(1, p.process, p.pid, x));
      }
    }
    if Fills(calls) {
      forall r: Request | r.pid == pidOf(r.process) && Reachable(calls, r)
        ensures exists q :: q in calls && Good(calls, q) && InsideOne(q, r)
      {
        ReachedIsHeld(calls, pidOf, r);
      }
    }
  }

  /** Whatever is spanned can obtain a key in any process with a passing call. */
  lemma Reaches(calls: seq<Query>, p: Query, x: nat)
    requires Good(calls, p) && Spanned(calls, x)
    ensures Reachable(calls, Request(1, p.process, p.pid, x))
  {
    var qs := Passing(calls);
    var a :| a in qs && a.base == LowestBase(qs);
    var b :| b in qs && b.base == HighestBase(qs);
    var c :| c in qs && c.size == LargestSize(qs);
    var r := Request(1, p.process, p.pid, x);
    assert Supply(calls, r, p, p, a, b, c);
    ReachableExact(calls, r);
  }

  lemma ReachedIsHeld(calls: seq<Query>, pidOf: nat -> nat, r: Request)
    requires Genuine(calls, pidOf) && Fills(calls) && r.pid == pidOf(r.process) && Reachable(calls, r)
    ensures exists q :: q in calls && Good(calls, q) && InsideOne(q, r)
  {
    ReachableExact(calls, r);
    var p, i, a, b, c :| Supply(calls, r, p, i, a, b, c);
    SuppliedIsSpanned(calls, r, p, i, a, b, c);
    HeldIsInside(calls, pidOf, p, r);
  }

  /** The bounds of the passing calls are bounds. */
  lemma Bounded(calls: seq<Query>, g: Query)
    requires Good(calls, g)
    ensures var qs := Passing(calls);
            g in qs && LowestBase(qs) <= g.base <= HighestBase(qs) && g.size <= LargestSize(qs)
  {
  }

  lemma SuppliedIsSpanned(calls: seq<Query>, r: Request, p: Query, i: Query, a: Query, b: Query, c: Query)
    requires Supply(calls, r, p, i, a, b, c)
    ensures Spanned(calls, r.routine)
  {
    Bounded(calls, a);
    Bounded(calls, b);
    Bounded(calls, c);
  }

  lemma HeldIsInside(calls: seq<Query>, pidOf: nat -> nat, p: Query, r: Request)
    requires Genuine(calls, pidOf) && r.pid == pidOf(r.process) && p.process == r.process && Held(calls, p.process, r.routine)
    ensures exists q :: q in calls && Good(calls, q) && InsideOne(q, r)
  {
    var q :| q in calls && Good(calls, q) && q.process == p.process && q.base <= r.routine < q.base + q.size;
    assert InsideOne(q, r);
  }

  // ----- calls of one process -----

  ghost predicate OneProcess(calls: seq<Query>)
  {
    forall p: Query, q: Query :: Good(calls, p) && Good(calls, q) ==> p.process == q.process
  }

  /** `d` has both the highest base and the largest size. */
  predicate Dominates(calls: seq<Query>, d: Query)
  {
    Good(calls, d) && forall q :: q in calls && Good(calls, q) ==> q.base <= d.base && q.size <= d.size
  }

  /** No address between two bases is left out. */
  ghost predicate Gapless(calls: seq<Query>)
  {
    forall a: Query, b: Query, x: nat :: Good(calls, a) && Good(calls, b) && x != 0 && a.base <= x < b.base ==> Held(calls, a.process, x)
  }

  /**
   Within one process nothing escapes exactly when the regions leave no gap and one
   passing call has both the highest base and the largest size, or no call passes.
   */
  lemma OneProcessExact(calls: seq<Query>, pidOf: nat -> nat)
    requires Genuine(calls, pidOf) && OneProcess(calls)
    ensures NothingEscapes(calls, pidOf) <==>
            (forall q :: !Good(calls, q)) || (Gapless(calls) && exists d :: Dominates(calls, d))
  {
    NothingEscapesExact(calls, pidOf);
    if Fills(calls) {
      NoGap(calls);
      if q :| Good(calls, q) { SomeDominates(calls, q); }
    } else {
      var p: Query, x: nat :| Good(calls, p) && Spanned(calls, x) && !Held(calls, p.process, x);
      if d :| Gapless(calls) && Dominates(calls, d) { GaplessHolds(calls, d, p, x); }
    }
  }

  lemma NoGap(calls: seq<Query>)
    requires Fills(calls)
    ensures Gapless(calls)
  {
    forall a: Query, b: Query, x: nat | Good(calls, a) && Good(calls, b) && x != 0 && a.base <= x < b.base
      ensures Held(calls, a.process, x)
    {
      assert a in Passing(calls) && b in Passing(calls);
      assert Spanned(calls, x);
    }
  }

  lemma SomeDominates(calls: seq<Query>, q: Query)
    requires Fills(calls) && Good(calls, q)
    ensures exists d :: Dominates(calls, d)
  {
    Bounded(calls, q);
    var b := HighestCall(calls);
    var c := LargestCall(calls);
    var x := b.base + c.size - 1;
    if c.size == 0 {
      TopDominates(calls, b);
    } else if x == 0 {
      TopDominates(calls, c);
    } else {
      Bounded(calls, b);
      assert Spanned(calls, x);
      HeldByTop(calls, b, x);
    }
  }

  lemma HighestCall(calls: seq<Query>) returns (b: Query)
    requires Passing(calls) != []
    ensures Good(calls, b) && b.base == HighestBase(Passing(calls))
  {
    var x := HighestBase(Passing(calls));
    b :| b in Passing(calls) && b.base == x;
  }

  lemma LargestCall(calls: seq<Query>) returns (c: Query)
    requires Passing(calls) != []
    ensures Good(calls, c) && c.size == LargestSize(Passing(calls))
  {
    var x := LargestSize(Passing(calls));
    c :| c in Passing(calls) && c.size == x;
  }

  lemma TopDominates(calls: seq<Query>, d: Query)
    requires Good(calls, d) && HighestBase(Passing(calls)) <= d.base && LargestSize(Passing(calls)) <= d.size
    ensures Dominates(calls, d)
  {
    forall q | q in calls && Good(calls, q) ensures q.base <= d.base && q.size <= d.size { Bounded(calls, q); }
  }

  /** Only a call with the highest base and the largest size holds the last address. */
  lemma HeldByTop(calls: seq<Query>, b: Query, x: nat)
    requires Good(calls, b) && Held(calls, b.process, x) && x + 1 == HighestBase(Passing(calls)) + LargestSize(Passing(calls))
    ensures exists d :: Dominates(calls, d)
  {
    var d :| d in calls && Good(calls, d) && d.process == b.process && d.base <= x < d.base + d.size;
    Bounded(calls, d);
    TopDominates(calls, d);
  }

  lemma GaplessHolds(calls: seq<Query>, d: Query, p: Query, x: nat)
    requires OneProcess(calls) && Gapless(calls) && Dominates(calls, d) && Good(calls, p) && Spanned(calls, x)
    ensures Held(calls, p.process, x)
  {
    DominatesBounds(calls, d);
    var a := LowestCall(calls);
    if x < d.base { HeldBetween(calls, a, d, x); } else { HeldBy(calls, d, x); }
    SameProcess(calls, p, a);
    SameProcess(calls, p, d);
  }

  lemma LowestCall(calls: seq<Query>) returns (a: Query)
    requires Passing(calls) != []
    ensures Good(calls, a) && a.base == LowestBase(Passing(calls))
  {
    var x := LowestBase(Passing(calls));
    a :| a in Passing(calls) && a.base == x;
  }

  lemma SameProcess(calls: seq<Query>, p: Query, q: Query)
    requires OneProcess(calls) && Good(calls, p) && Good(calls, q)
    ensures p.process == q.process
  {
  }

  lemma HeldBetween(calls: seq<Query>, a: Query, b: Query, x: nat)
    requires Gapless(calls) && Good(calls, a) && Good(calls, b) && x != 0 && a.base <= x < b.base
    ensures Held(calls, a.process, x)
  {
  }

  lemma HeldBy(calls: seq<Query>, d: Query, x: nat)
    requires Good(calls, d) && d.base <= x < d.base + d.size
    ensures Held(calls, d.process, x)
  {
  }

  lemma DominatesBounds(calls: seq<Query>, d: Query)
    requires Dominates(calls, d)
    ensures d in Passing(calls) && HighestBase(Passing(calls)) <= d.base && LargestSize(Passing(calls)) <= d.size
  {
  }

  // ----- two calls -----

  function Max(x: nat, y: nat): nat { if x < y then y else x }

  /** The requests that mixtures of two calls of one process let through. */
  predicate Between(a: Query, b: Query, r: Request)
  {
    && (r.level == 1 || r.level == 2) && r.process == a.process && r.pid == a.pid && r.routine != 0
    && Min(a.base, b.base) <= r.routine < Max(a.base, b.base) + Max(a.size, b.size)
  }

  /** Two passing calls of one process, each made once, reach from the lower base to the higher base plus the larger size. */
  lemma OverlapExact(a: Query, b: Query, r: Request)
    requires Good([a, b], a) && Good([a, b], b) && a.process == b.process && a.pid == b.pid
    ensures ReachableOnce([a, b], r) <==> Between(a, b, r)
  {
    if evs :| GrantsOnce(evs, [a, b], r) { OnceIsBetween(a, b, r, evs); }
    if Between(a, b, r) { BetweenIsReachable(a, b, r); }
  }

  lemma OnceIsBetween(a: Query, b: Query, r: Request, evs: seq<Event>)
    requires a.process == b.process && a.pid == b.pid && GrantsOnce(evs, [a, b], r)
    ensures Between(a, b, r)
  {
    OnceIsReachable(evs, [a, b], r);
    ReachableExact([a, b], r);
    var p, i, x, y, z :| Supply([a, b], r, p, i, x, y, z);
    MixtureIsBetween(a, b, r, x, y, z);
  }

  lemma MixtureIsBetween(a: Query, b: Query, r: Request, x: Query, y: Query, z: Query)
    requires x in [a, b] && y in [a, b] && z in [a, b] && a.process == b.process && a.pid == b.pid
    requires Admits(r, a.process, a.pid, x.base, y.base, z.size)
    ensures Between(a, b, r)
  {
  }

  lemma BetweenIsReachable(a: Query, b: Query, r: Request)
    requires Good([a, b], a) && Good([a, b], b) && a.process == b.process && a.pid == b.pid && Between(a, b, r)
    ensures ReachableOnce([a, b], r)
  {
    var low, high := if a.base <= b.base then a else b, if a.base <= b.base then b else a;
    SupplyOnce([a, b], r, a, low, high, if a.size >= b.size then a else b);
  }

  /** With overlapping calls a key can go to a routine that lies in neither verified region. */
  lemma OverlapEscapes()
    ensures exists a, b, r :: Good([a, b], a) && Good([a, b], b) && ReachableOnce([a, b], r) && !InsideOne(a, r) && !InsideOne(b, r)
  {
    var a := Query(0x1_0000, 7, 8, 0, 0, true, true, 0, true, 0x1_0000, 0x1000);
    var b := a.(codeAddress := 0x20_0000, base := 0x20_0000, size := 0x10_0000);
    var r := Request(2, 7, 8, 0x2_0000);
    OverlapExact(a, b, r);
  }

  /** Two processes that share the client: one gets its key at an address that only the other one verified. */
  lemma OtherProcessEscapes() returns (a: Query, b: Query, r: Request)
    ensures Good([a, b], a) && Good([a, b], b) && a.process != b.process && ReachableOnce([a, b], r)
    ensures b.base <= r.routine < b.base + b.size && r.process == a.process && r.pid == a.pid && !InsideOne(a, r)
  {
    a := Query(0x1_0000, 7, 8, 0, 0, true, true, 0, true, 0x1_0000, 0x1000);
    b := Query(0x1_1000, 9, 10, 0, 0, true, true, 0, true, 0x1_1000, 0x1000);
    r := Request(1, 7, 8, 0x1_1800);
    SupplyOnce([a, b], r, a, a, b, b);
  }
}
