/**
 When a copy succeeds, what stops it, and which blocks it makes, in terms of the
 call and of how the system behaves (KSystemHacker/vm.c, lines 120-290). Lengths
 are written out: up to 0x200 bytes go through the stack buffer, up to 0x3ff
 through a pool buffer, and larger blocks of at most 0xC000 bytes are mapped.
 */
module CopyOutcome {
  import opened Common
  import opened CopyPlan

  lemma FirstBlock(m: Machine, c: Call, tried: nat)
    requires |c.source| > 0
    ensures var plan := Plan(m, c, tried);
            && plan != [] && plan[0].offset == 0 && plan[0].size > 0
            && (plan[0].size > 0x3ff <==> |c.source| > 0x3ff)
  {
  }

  /** The plan and its last block, where a fault ends it. */
  lemma LastBlock(m: Machine, c: Call, tried: nat)
    ensures var plan := Plan(m, c, tried);
            && Tiles(plan, 0, MAX_BLOCK) && Covers(m, c, plan, 0)
            && (forall i :: 0 <= i < |plan| - 1 ==> Clean(m, c, plan[i]))
            && (plan != [] ==> plan[|plan| - 1].offset < plan[|plan| - 1].End() <= |c.source|)
  {
    AttemptsTileAndCover(m, c, Start(c, tried));
    LastDecides(m, c, Plan(m, c, tried), 0);
  }

  /**
   The copy succeeds exactly if no probe of a user-mode call raises and, at the
   offset of every planned block, reading the source, mapping it if it is larger
   than 0x3ff bytes, and writing the target all go through. Then all is copied.
   */
  lemma SuccessExact(m: Machine, c: Call, tried: nat, was: seq<Byte>)
    requires |was| == |c.source|
    ensures var plan := Plan(m, c, tried);
            && (Told(m, c, plan).Success? <==>
                  && (c.userMode && |c.source| > 0 ==> m.readProbe.None? && m.writeProbe.None?)
                  && forall b :: b in plan ==>
                       && !m.sourceFaults(b.offset) && (b.size > 0x3ff ==> !m.mapFails(b.offset)) && m.writeFaults(b.offset).None?)
            && (Told(m, c, plan).Success? ==>
                  && Told(m, c, plan) == Success(|c.source|)
                  && (plan != [] ==> plan[|plan| - 1].End() <= |was|) && Left(m, c, plan, was) == c.source)
  {
    var plan := Plan(m, c, tried);
    PlanFacts(m, c, plan, tried);
    LastBlock(m, c, tried);
    if |c.source| > 0 {
      FirstBlock(m, c, tried);
      if Told(m, c, plan).Success? { assert plan[0] in plan && Clean(m, c, plan[0]); }
    }
  }

  /** A user-mode source range that cannot be read fails with the code of the probe, and the target is untouched. */
  lemma ReadProbeStops(m: Machine, c: Call, tried: nat, was: seq<Byte>)
    requires c.userMode && |was| == |c.source| > 0 && m.readProbe.Some?
    ensures var plan := Plan(m, c, tried);
            && |plan| == 1 && plan[0].End() <= |was|
            && Told(m, c, plan) == Failed(m.readProbe.value) && Left(m, c, plan, was) == was
  {
    FirstBlock(m, c, tried);
    LastBlock(m, c, tried);
    assert !Clean(m, c, Plan(m, c, tried)[0]);
    assert Progress(c, was, 0) == was;
  }

  /**
   A user-mode target range that cannot be written fails with the code of the probe,
   unless reading or mapping the first block failed before; the target is untouched.
   */
  lemma WriteProbeStops(m: Machine, c: Call, tried: nat, was: seq<Byte>)
    requires c.userMode && |was| == |c.source| > 0 && m.readProbe.None? && m.writeProbe.Some?
    ensures var plan := Plan(m, c, tried);
            && |plan| == 1 && plan[0].End() <= |was| && Left(m, c, plan, was) == was
            && Told(m, c, plan) == if m.sourceFaults(0) then PartialCopy(0)
                                   else if |c.source| > 0x3ff && m.mapFails(0) then Failed(0xC000_009A - 0x1_0000_0000)
                                   else Failed(m.writeProbe.value)
  {
    FirstBlock(m, c, tried);
    LastBlock(m, c, tried);
    assert !Clean(m, c, Plan(m, c, tried)[0]);
    assert Progress(c, was, 0) == was;
  }

  /** Past the probes: what a fault in the last block `b` leaves and reports. */
  lemma BlockStops(m: Machine, c: Call, tried: nat, b: Attempt, was: seq<Byte>)
    requires |was| == |c.source| && Plan(m, c, tried) != [] && b == Plan(m, c, tried)[|Plan(m, c, tried)| - 1]
    requires c.userMode && b.offset == 0 ==> m.readProbe.None? && m.writeProbe.None?
    ensures b.offset < b.End() <= |was|
    ensures var told, left := Told(m, c, Plan(m, c, tried)), Left(m, c, Plan(m, c, tried), was);
            if m.sourceFaults(b.offset) then told == PartialCopy(b.offset) && left == c.source[..b.offset] + was[b.offset..]
            else if b.size > 0x3ff && m.mapFails(b.offset) then
              told == Failed(0xC000_009A - 0x1_0000_0000) && left == c.source[..b.offset] + was[b.offset..]
            else if m.writeFaults(b.offset).Some? then
              var w := m.writeFaults(b.offset).value;
              && told.PartialCopy? && (!w.haveBad ==> told == PartialCopy(b.offset))
              && |left| == |was|
              && forall i :: 0 <= i < |was| ==>
                   left[i] == if i < b.offset || (i < b.End() && w.landed(i)) then c.source[i] else was[i]
            else told == Success(|c.source|) && left == c.source
  {
    LastBlock(m, c, tried);
  }

  // ----- block sizes -----

  function Half(size: nat, k: nat): nat { if k == 0 then size else Half(size, k - 1) / 2 }

  /** After `k` failed attempts the loop is `l'`. */
  ghost predicate HalvedTo(m: Machine, l: Loop, l': Loop, k: nat)
  {
    && l'.done == l.done && l'.blockSize == Half(l.blockSize, k)
    && (forall j :: 0 <= j < k ==> Half(l.blockSize, j) > 0x200 && !m.allocates(l.tried + j))
    && if l'.blockSize > 0x200 then l'.pooled && m.allocates(l.tried + k) && l'.tried == l.tried + k + 1
       else !l'.pooled && k > 0 && l'.tried == l.tried + k
  }

  /**
   Halving stops at the first allocation that succeeds or at the first size of at
   most 0x200, which needs none; every attempt before failed.
   */
  lemma {:induction false} HalvedExact(m: Machine, l: Loop) returns (k: nat)
    requires l.blockSize > 0x200 && !l.pooled
    ensures HalvedTo(m, l, Halved(m, l), k)
    decreases l.blockSize
  {
    if m.allocates(l.tried) {
      k := 0;
    } else if l.blockSize / 2 <= 0x200 {
      k := 1;
      assert Half(l.blockSize, 1) == Half(l.blockSize, 0) / 2;
    } else {
      var next := l.(blockSize := l.blockSize / 2, tried := l.tried + 1);
      var n := HalvedExact(m, next);
      k := n + 1;
      HalfOnce(l.blockSize, n);
      forall j | 0 <= j < k ensures Half(l.blockSize, j) > 0x200 && !m.allocates(l.tried + j) {
        if j > 0 {
          HalfOnce(l.blockSize, j - 1);
          assert !m.allocates(next.tried + (j - 1));
        }
      }
    }
  }

  lemma {:induction false} HalfOnce(size: nat, k: nat)
    ensures Half(size, k + 1) == Half(size / 2, k)
  {
    if k > 0 { HalfOnce(size, k - 1); }
  }

  /** The next block: what is left or as much as before, halved only between 0x201 and 0x3ff bytes without a pool buffer. */
  lemma NextSize(m: Machine, c: Call, l: Loop)
    requires AtHead(c, l) && l.done < |c.source|
    ensures var wanted := if l.blockSize > |c.source| - l.done then |c.source| - l.done else l.blockSize;
            var (b, next) := NextAttempt(m, c, l);
            && b.offset == l.done && next.done == l.done + b.size && next.blockSize == b.size
            && (wanted <= 0x200 || wanted > 0x3ff || l.pooled ==> b.size == wanted)
            && (0x200 < wanted <= 0x3ff && !l.pooled ==>
                  exists k: nat :: HalvedTo(m, l.(blockSize := wanted), next.(done := l.done), k))
            && (wanted <= 0x200 ==> !next.pooled) && (wanted > 0x3ff ==> next.pooled == l.pooled)
  {
    var wanted := Trimmed(l.blockSize, |c.source| - l.done);
    if 0x200 < wanted <= 0x3ff && !l.pooled {
      var k := HalvedExact(m, l.(blockSize := wanted));
      var (b, next) := NextAttempt(m, c, l);
      assert HalvedTo(m, l.(blockSize := wanted), next.(done := l.done), k);
    }
  }

  /** The first block is as long as the call, at most twelve pages of 4096 bytes. */
  lemma FirstSize(c: Call, tried: nat)
    ensures Start(c, tried) == Loop(0, if |c.source| < 0xC000 then |c.source| else 0xC000, false, tried)
  {
  }
}
