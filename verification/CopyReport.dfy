/**
 What the length reported by KphCopyVirtualMemory means when a copy ends early
 (KSystemHacker/vm.c, lines 262-276). Its documentation promises the number of
 bytes copied. After a fault on the target side that names its address, the code
 subtracts the source address of the block from that address; after any other
 fault it reports the bytes before the block.
 */
module CopyReport {
  import opened Common
  import opened CopyPlan

  /**
   A memcpy that goes forward faulted on byte `e` of the call: what is before it has
   landed, the rest of the block has not. The exception record names no address, or
   one in the rest of the block: that byte, or, if it was stored together with bytes
   that can be written, a later one.
   */
  ghost predicate StoppedAt(c: Call, b: Attempt, w: WriteFault, e: nat)
  {
    && b.offset <= e < b.End()
    && (forall i :: b.offset <= i < b.End() ==> (w.landed(i) <==> i < e))
    && (w.haveBad ==> exists n :: e <= n < b.End() && w.badAddress == Address(c.toAddress, n))
  }

  /** The call ends as a partial copy in block `b`, with `e` bytes copied. */
  ghost predicate EndsAt(m: Machine, c: Call, tried: nat, b: Attempt, e: nat)
  {
    var log := Plan(m, c, tried);
    && log != [] && b == log[|log| - 1] && b.offset < b.End() <= |c.source|
    && match FirstFault(m, c, b)
       case SourceFaulted => e == b.offset
       case TargetFaulted(w) => StoppedAt(c, b, w, e)
       case _ => false
  }

  /** It ends with a target-side fault that names an address. */
  predicate Named(m: Machine, c: Call, b: Attempt)
  {
    FirstFault(m, c, b).TargetFaulted? && FirstFault(m, c, b).w.haveBad
  }

  /** The address named is that of byte `n` of the call. */
  predicate Names(m: Machine, c: Call, b: Attempt, n: nat)
  {
    Named(m, c, b) && FirstFault(m, c, b).w.badAddress == Address(c.toAddress, n)
  }

  /** Then exactly the first `e` bytes of the target have been copied. */
  lemma BytesCopied(m: Machine, c: Call, tried: nat, b: Attempt, e: nat, was: seq<Byte>)
    requires EndsAt(m, c, tried, b, e) && |was| == |c.source|
    ensures Told(m, c, Plan(m, c, tried)).PartialCopy? && Left(m, c, Plan(m, c, tried), was) == Progress(c, was, e)
  {
  }

  /**
   If byte `n` is named, the report is right exactly when the buffers lie the length
   of the earlier blocks apart, less the bytes between the last one that landed and
   the one named, modulo 2^32.
   */
  lemma NamedReportExact(m: Machine, c: Call, tried: nat, b: Attempt, e: nat, n: nat)
    requires EndsAt(m, c, tried, b, e) && Names(m, c, b, n) && e <= n < b.End()
    ensures Told(m, c, Plan(m, c, tried)) == PartialCopy(e) <==>
            (c.toAddress - c.fromAddress - b.offset + (n - e)) % TWO32 == 0 && e < TWO32
  {
    StoredLength(c.fromAddress, c.toAddress, b.offset, e, n);
  }

  /** If no address is named, it is right exactly when no byte of the interrupted block landed. */
  lemma UnnamedReportExact(m: Machine, c: Call, tried: nat, b: Attempt, e: nat)
    requires EndsAt(m, c, tried, b, e) && !Named(m, c, b)
    ensures Told(m, c, Plan(m, c, tried)) == PartialCopy(e) <==> e == b.offset
  {
  }

  lemma StoredLength(fromAddress: nat, toAddress: nat, done: nat, e: nat, n: nat)
    requires done <= e <= n
    ensures TargetFaultLength(Address(toAddress, n), Address(fromAddress, done)) == e
            <==> (toAddress - fromAddress - done + (n - e)) % TWO32 == 0 && e < TWO32
  {
    var bad, source := Address(toAddress, n), Address(fromAddress, done);
    var turns: int := (toAddress + n) / TWO64 - (fromAddress + done) / TWO64;
    var far := toAddress - fromAddress - done + (n - e);
    assert bad - source == far + e - turns * TWO64;
    WholeTurns(bad - source, (bad - source) / TWO64);
    WholeTurns(far + e, turns);
    SameResidue(far, e);
  }

  lemma WholeTurns(x: int, n: int)
    ensures (x - n * TWO64) % TWO32 == x % TWO32
  {
    assert x - n * TWO64 == x - (n * TWO32) * TWO32;
  }

  lemma SameResidue(far: int, e: nat)
    ensures (far + e) % TWO32 == e <==> far % TWO32 == 0 && e < TWO32
  {
  }

  // ----- what a caller can rely on -----

  /** Every partial copy of this call, however the system behaves, is reported with the number of bytes copied. */
  ghost predicate ReportsRight(c: Call)
  {
    forall m, tried, b, e :: EndsAt(m, c, tried, b, e) ==> Told(m, c, Plan(m, c, tried)) == PartialCopy(e)
  }

  /** The same for the target-side faults that name the first byte that did not land. */
  ghost predicate NamedReportsRight(c: Call)
  {
    forall m, tried, b, e :: EndsAt(m, c, tried, b, e) && Names(m, c, b, e) ==> Told(m, c, Plan(m, c, tried)) == PartialCopy(e)
  }

  predicate Congruent(c: Call) { (c.toAddress - c.fromAddress) % TWO32 == 0 }

  /** Lengths that one block covers whatever allocations fail: not above twelve pages, and not where a pool buffer is tried. */
  predicate OneBlock(length: nat) { length <= MAX_BLOCK && !(STACK_COPY_BYTES < length <= POOL_COPY_THRESHOLD) }

  /**
   A caller can rely on the reported length exactly when there is nothing to copy, or
   a single byte between addresses that agree modulo 2^32.
   */
  lemma ReportsRightExact(c: Call)
    ensures ReportsRight(c) <==> |c.source| == 0 || (|c.source| == 1 && Congruent(c))
  {
    NamedReportsRightExact(c);
    if |c.source| <= 1 {
      if ReportsRight(c) { assert NamedReportsRight(c); }
      if NamedReportsRight(c) { ShortReports(c); }
    } else {
      var b := UnnamedFault(c);
      UnnamedReportExact(SilentFault(1), c, 0, b, 1);
    }
  }

  /** If every target-side fault names the first byte that did not land: nothing to copy, or congruent addresses and a length copied in one block. */
  lemma NamedReportsRightExact(c: Call)
    ensures NamedReportsRight(c) <==> |c.source| == 0 || (Congruent(c) && OneBlock(|c.source|))
  {
    if |c.source| == 0 || (Congruent(c) && OneBlock(|c.source|)) { ReliableReports(c); } else { UnreliableReports(c); }
  }

  lemma ReliableReports(c: Call)
    requires |c.source| == 0 || (Congruent(c) && OneBlock(|c.source|))
    ensures NamedReportsRight(c)
  {
    forall m, tried, b, e | EndsAt(m, c, tried, b, e) && Names(m, c, b, e)
      ensures Told(m, c, Plan(m, c, tried)) == PartialCopy(e)
    {
      SingleBlock(m, c, tried);
      NamedReportExact(m, c, tried, b, e, e);
    }
  }

  /** A single byte cannot be interrupted in the middle. */
  lemma ShortReports(c: Call)
    requires NamedReportsRight(c) && |c.source| <= 1
    ensures ReportsRight(c)
  {
    forall m, tried, b, e | EndsAt(m, c, tried, b, e) ensures Told(m, c, Plan(m, c, tried)) == PartialCopy(e) {
      if !Named(m, c, b) { UnnamedReportExact(m, c, tried, b, e); } else { assert Names(m, c, b, e); }
    }
  }

  lemma Misreported(m: Machine, c: Call, tried: nat, b: Attempt, e: nat)
    requires EndsAt(m, c, tried, b, e) && Names(m, c, b, e) && (c.toAddress - c.fromAddress - b.offset) % TWO32 != 0
    ensures !NamedReportsRight(c)
  {
    NamedReportExact(m, c, tried, b, e, e);
  }

  lemma UnreliableReports(c: Call)
    requires |c.source| > 0 && !(Congruent(c) && OneBlock(|c.source|))
    ensures !NamedReportsRight(c)
  {
    if !Congruent(c) {
      var b := FaultInFirst(c);
      Misreported(FaultAt(c, 0), c, 0, b, 0);
    } else {
      var b := FaultInSecond(c);
      BlockApart(c.toAddress - c.fromAddress, b.offset);
      Misreported(FaultAt(c, b.offset), c, 0, b, b.offset);
    }
  }

  lemma BlockApart(far: int, offset: nat)
    requires far % TWO32 == 0 && 0 < offset <= MAX_BLOCK
    ensures (far - offset) % TWO32 != 0
  {
    assert far == far / TWO32 * TWO32;
  }

  lemma SingleBlock(m: Machine, c: Call, tried: nat)
    requires OneBlock(|c.source|)
    ensures Plan(m, c, tried) == if |c.source| == 0 then [] else [Attempt(0, |c.source|)]
  {
    if |c.source| > 0 {
      var (b, next) := NextAttempt(m, c, Start(c, tried));
      assert b == Attempt(0, |c.source|) && Attempts(m, c, next) == [];
    }
  }

  /** Every allocation fails, and so does writing the target byte `off` when a block starts there. */
  function FaultAt(c: Call, off: nat): Machine
  {
    Machine(_ => false, None, None, _ => false, _ => false,
            x => if x == off then Some(WriteFault(i => i < off, true, Address(c.toAddress, off))) else None)
  }

  lemma FaultInFirst(c: Call) returns (b: Attempt)
    requires |c.source| > 0
    ensures b.offset == 0 && EndsAt(FaultAt(c, 0), c, 0, b, 0) && Names(FaultAt(c, 0), c, b, 0)
  {
    b := NextAttempt(FaultAt(c, 0), c, Start(c, 0)).0;
    assert Plan(FaultAt(c, 0), c, 0) == [b];
  }

  lemma FaultInSecond(c: Call) returns (b: Attempt)
    requires |c.source| > 0 && !OneBlock(|c.source|)
    ensures 0 < b.offset <= MAX_BLOCK && EndsAt(FaultAt(c, b.offset), c, 0, b, b.offset) && Names(FaultAt(c, b.offset), c, b, b.offset)
  {
    var off := if |c.source| > MAX_BLOCK then MAX_BLOCK else |c.source| / 2;
    var m := FaultAt(c, off);
    var (first, next) := NextAttempt(m, c, Start(c, 0));
    assert first == Attempt(0, off) && Clean(m, c, first);
    b := NextAttempt(m, c, next).0;
    assert Attempts(m, c, next) == [b];
    assert Plan(m, c, 0) == [first, b];
  }

  /** Allocations succeed, and writing byte `e` of the first block faults without naming an address. */
  function SilentFault(e: nat): Machine
  {
    Machine(_ => true, None, None, _ => false, _ => false,
            x => if x == 0 then Some(WriteFault(i => i < e, false, 0)) else None)
  }

  lemma UnnamedFault(c: Call) returns (b: Attempt)
    requires |c.source| > 1
    ensures b.offset == 0 && EndsAt(SilentFault(1), c, 0, b, 1) && !Named(SilentFault(1), c, b)
  {
    b := NextAttempt(SilentFault(1), c, Start(c, 0)).0;
    assert b.size == Trimmed(MAX_BLOCK, |c.source|);
    assert Plan(SilentFault(1), c, 0) == [b];
  }

  /** Whatever the addresses: one byte landed before such a fault, and the report says that none was copied. */
  lemma SilentReport(c: Call, was: seq<Byte>)
    requires |c.source| > 1 && |was| == |c.source|
    ensures var m := SilentFault(1); var plan := Plan(m, c, 0);
            && Told(m, c, plan) == PartialCopy(0)
            && (plan != [] ==> plan[|plan| - 1].End() <= |was|) && Left(m, c, plan, was) == Progress(c, was, 1)
  {
    var b := UnnamedFault(c);
    BytesCopied(SilentFault(1), c, 0, b, 1, was);
  }

  /** Two user buffers 1 MiB apart: a fault on the very first byte is reported as a mebibyte copied out of a page. */
  lemma WrongReport(was: seq<Byte>)
    requires |was| == 0x1000
    ensures var c := Call(4, 0x10_0000, was, 8, 0x20_0000, true); var m := FaultAt(c, 0);
            && (exists b :: EndsAt(m, c, 0, b, 0)) && Left(m, c, Plan(m, c, 0), was) == was
            && Told(m, c, Plan(m, c, 0)) == PartialCopy(0x10_0000)
  {
    var c := Call(4, 0x10_0000, was, 8, 0x20_0000, true);
    var b := FaultInFirst(c);
    BytesCopied(FaultAt(c, 0), c, 0, b, 0, was);
    assert Progress(c, was, 0) == was;
  }
}
