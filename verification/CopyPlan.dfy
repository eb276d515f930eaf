/**
 What KphCopyVirtualMemory of KSystemHacker/vm.c does, as functions of the call
 and of how the system behaves: which blocks are attempted, which access faults
 first, what the caller is told and what the target holds afterwards.

 The byte ranges being copied are the sequence `source` and a target of the same
 length, whose first elements sit at `fromAddress` and `toAddress`. How the system
 behaves (which allocations succeed, which accesses fault) is the parameter
 `Machine`, indexed by allocation attempt or by the offset of the block, so a
 claim about every machine is a claim about every pattern of failures.
 */
module CopyPlan {
  import opened Common

  const PAGE_SIZE: nat := 4096
  const STACK_COPY_BYTES: nat := 0x200
  const MAPPED_COPY_PAGES: nat := 14
  const POOL_COPY_THRESHOLD: nat := 0x3ff
  /** mappedTotalSize before it is cut to the length of the call. */
  const MAX_BLOCK: nat := (MAPPED_COPY_PAGES - 2) * PAGE_SIZE

  const STATUS_INSUFFICIENT_RESOURCES: int := 0xC000_009A - TWO32

  /** The bytes of the target that an interrupted memcpy had written, and what the exception record says. */
  datatype WriteFault = WriteFault(landed: nat -> bool, haveBad: bool, badAddress: nat)

  datatype Machine = Machine(
    allocates: nat -> bool,
    readProbe: Option<int>, writeProbe: Option<int>,
    sourceFaults: nat -> bool, mapFails: nat -> bool,
    writeFaults: nat -> Option<WriteFault>)

  datatype Call = Call(fromProcess: nat, fromAddress: nat, source: seq<Byte>, toProcess: nat, toAddress: nat, userMode: bool)

  /** One pass through the loop body: the block of `size` bytes at `offset`. */
  datatype Attempt = Attempt(offset: nat, size: nat)
  {
    function End(): nat { offset + size }

    /** Larger blocks are mapped, smaller ones staged in a buffer. */
    predicate Mapped() { size > POOL_COPY_THRESHOLD }
  }

  // ----- the first fault of a block -----

  datatype Fault = NoFault | ProbeRaised(code: int) | SourceFaulted | MappingFailed | TargetFaulted(w: WriteFault)

  /** Probes only happen in the first block of a user-mode call. */
  predicate Probes(c: Call, b: Attempt) { b.offset == 0 && c.userMode }

  /** Lines 185-222: probing and reading or mapping the source. */
  function SourceFault(m: Machine, c: Call, b: Attempt): Fault
  {
    if Probes(c, b) && m.readProbe.Some? then ProbeRaised(m.readProbe.value)
    else if m.sourceFaults(b.offset) then SourceFaulted
    else if b.Mapped() && m.mapFails(b.offset) then MappingFailed
    else NoFault
  }

  /** Lines 224-240: probing and writing the target. */
  function TargetFault(m: Machine, c: Call, b: Attempt): Fault
  {
    if Probes(c, b) && m.writeProbe.Some? then ProbeRaised(m.writeProbe.value)
    else if m.writeFaults(b.offset).Some? then TargetFaulted(m.writeFaults(b.offset).value)
    else NoFault
  }

  function FirstFault(m: Machine, c: Call, b: Attempt): Fault
  {
    if SourceFault(m, c, b).NoFault? then TargetFault(m, c, b) else SourceFault(m, c, b)
  }

  predicate Clean(m: Machine, c: Call, b: Attempt) { FirstFault(m, c, b).NoFault? }

  /** A pointer `n` bytes behind `base`. */
  function Address(base: nat, n: nat): nat { (base + n) % TWO64 }

  // ----- what the caller is told -----

  datatype Outcome =
    | Success(returnLength: nat)
    | PartialCopy(returnLength: nat)
    | Failed(code: int) // ReturnLength is not written

  /** The ULONG the handler stores when a target address faulted (line 269). */
  function TargetFaultLength(badAddress: int, sourceAddress: nat): nat
  {
    ((badAddress - sourceAddress) % TWO64) % TWO32
  }

  /** Lines 262-276. */
  function Report(c: Call, b: Attempt, f: Fault): Outcome
    requires !f.NoFault?
  {
    match f
    case ProbeRaised(code) => Failed(code)
    case MappingFailed => Failed(STATUS_INSUFFICIENT_RESOURCES)
    case SourceFaulted => PartialCopy(b.offset)
    case TargetFaulted(w) =>
      PartialCopy(if w.haveBad then TargetFaultLength(w.badAddress, Address(c.fromAddress, b.offset)) else b.offset)
  }

  // ----- what the target holds -----

  /** The target once the first `done` bytes are copied. */
  ghost function Progress(c: Call, was: seq<Byte>, done: nat): seq<Byte>
    requires |was| == |c.source| && done <= |was|
  {
    c.source[..done] + was[done..]
  }

  /** The target after a block: copied, partly written by a faulting memcpy, or untouched. */
  ghost function After(c: Call, b: Attempt, f: Fault, was: seq<Byte>): seq<Byte>
    requires |was| == |c.source| && b.End() <= |was|
  {
    match f
    case NoFault => seq(|was|, i requires 0 <= i < |was| => if b.offset <= i < b.End() then c.source[i] else was[i])
    case TargetFaulted(w) =>
      seq(|was|, i requires 0 <= i < |was| => if b.offset <= i < b.End() && w.landed(i) then c.source[i] else was[i])
    case _ => was
  }

  lemma CopiedProgresses(c: Call, b: Attempt, was: seq<Byte>)
    requires |was| == |c.source| && b.End() <= |was|
    ensures After(c, b, NoFault, Progress(c, was, b.offset)) == Progress(c, was, b.End())
  {
  }

  // ----- which blocks are attempted -----

  /** The loop variables that decide the next block: `pooled` says whether a pool buffer is held. */
  datatype Loop = Loop(done: nat, blockSize: nat, pooled: bool, tried: nat)

  function Trimmed(blockSize: nat, stillToCopy: nat): nat { if blockSize > stillToCopy then stillToCopy else blockSize }

  /** Lines 152-170: halve the block until an allocation succeeds or the stack buffer is enough. */
  function Halved(m: Machine, l: Loop): (l': Loop)
    requires l.blockSize > STACK_COPY_BYTES && !l.pooled
    ensures 0 < l'.blockSize <= l.blockSize && l'.done == l.done && (l'.blockSize > STACK_COPY_BYTES ==> l'.pooled)
    decreases l.blockSize
  {
    if m.allocates(l.tried) then l.(pooled := true, tried := l.tried + 1)
    else if l.blockSize / 2 <= STACK_COPY_BYTES then l.(blockSize := l.blockSize / 2, tried := l.tried + 1)
    else Halved(m, l.(blockSize := l.blockSize / 2, tried := l.tried + 1))
  }

  /** Lines 127-173: trim the block to what is left and pick a way to stage it. */
  function Staged(m: Machine, l: Loop, stillToCopy: nat): (l': Loop)
    requires l.blockSize > 0 && stillToCopy > 0
    ensures 0 < l'.blockSize <= Trimmed(l.blockSize, stillToCopy) && l'.done == l.done
    ensures l'.blockSize > POOL_COPY_THRESHOLD <==> Trimmed(l.blockSize, stillToCopy) > POOL_COPY_THRESHOLD
  {
    var t := l.(blockSize := Trimmed(l.blockSize, stillToCopy));
    if t.blockSize > POOL_COPY_THRESHOLD then t
    else if t.blockSize <= STACK_COPY_BYTES then t.(pooled := false)
    else if t.pooled then t
    else Halved(m, t)
  }

  function Start(c: Call, tried: nat): Loop { Loop(0, Trimmed(MAX_BLOCK, |c.source|), false, tried) }

  predicate AtHead(c: Call, l: Loop) { l.done <= |c.source| && (l.done < |c.source| ==> l.blockSize > 0) }

  /** The next block and the head of the loop after it. */
  function NextAttempt(m: Machine, c: Call, l: Loop): (r: (Attempt, Loop))
    requires AtHead(c, l) && l.done < |c.source|
    ensures r.0.offset == l.done && 0 < r.0.size <= l.blockSize && r.0.End() <= |c.source|
    ensures r.1.done == r.0.End() && r.1.blockSize == r.0.size && AtHead(c, r.1)
  {
    var l' := Staged(m, l, |c.source| - l.done);
    (Attempt(l.done, l'.blockSize), l'.(done := l.done + l'.blockSize))
  }

  /** The blocks attempted from the head of the loop on; the last one is the one that faults, if any does. */
  function Attempts(m: Machine, c: Call, l: Loop): seq<Attempt>
    requires AtHead(c, l)
    decreases |c.source| - l.done
  {
    if l.done == |c.source| then []
    else
      var (b, next) := NextAttempt(m, c, l);
      if Clean(m, c, b) then [b] + Attempts(m, c, next) else [b]
  }

  function Plan(m: Machine, c: Call, tried: nat): seq<Attempt> { Attempts(m, c, Start(c, tried)) }

  // ----- what holds of every sequence of attempts -----

  /** Adjacent blocks from `offset` on, positive and never growing from `limit` down. */
  ghost predicate Tiles(log: seq<Attempt>, offset: nat, limit: nat)
  {
    log == [] || (log[0].offset == offset && 0 < log[0].size <= limit && Tiles(log[1..], log[0].End(), log[0].size))
  }

  lemma TileOneMore(b: Attempt, rest: seq<Attempt>, limit: nat)
    requires 0 < b.size <= limit && Tiles(rest, b.End(), b.size)
    ensures Tiles([b] + rest, b.offset, limit)
  {
    assert ([b] + rest)[1..] == rest;
  }

  /** Adjacent blocks inside the range; only the last can have a fault, and without one they reach the end. */
  ghost predicate Covers(m: Machine, c: Call, log: seq<Attempt>, from: nat)
  {
    if log == [] then from == |c.source|
    else
      && log[0].offset == from < log[0].End() <= |c.source|
      && if Clean(m, c, log[0]) then Covers(m, c, log[1..], log[0].End()) else |log| == 1
  }

  lemma CoverOneMore(m: Machine, c: Call, b: Attempt, rest: seq<Attempt>)
    requires Clean(m, c, b) && b.size > 0 && b.End() <= |c.source| && Covers(m, c, rest, b.End())
    ensures Covers(m, c, [b] + rest, b.offset)
  {
    assert ([b] + rest)[1..] == rest;
  }

  lemma {:induction false} AttemptsTileAndCover(m: Machine, c: Call, l: Loop)
    requires AtHead(c, l)
    ensures Tiles(Attempts(m, c, l), l.done, l.blockSize) && Covers(m, c, Attempts(m, c, l), l.done)
    decreases |c.source| - l.done
  {
    if l.done < |c.source| {
      var (b, next) := NextAttempt(m, c, l);
      if Clean(m, c, b) {
        AttemptsTileAndCover(m, c, next);
        TileOneMore(b, Attempts(m, c, next), l.blockSize);
        CoverOneMore(m, c, b, Attempts(m, c, next));
      }
    }
  }

  /** The last block decides: it is the only one that can have a fault, and the plan is clean exactly if it is. */
  lemma {:induction false} LastDecides(m: Machine, c: Call, log: seq<Attempt>, from: nat)
    requires Covers(m, c, log, from)
    ensures (forall b :: b in log ==> Clean(m, c, b)) <==> log == [] || Clean(m, c, log[|log| - 1])
    ensures forall i :: 0 <= i < |log| - 1 ==> Clean(m, c, log[i])
    ensures log != [] ==> log[|log| - 1].offset < log[|log| - 1].End() <= |c.source|
  {
    if log != [] && Clean(m, c, log[0]) {
      LastDecides(m, c, log[1..], log[0].End());
      assert log == [log[0]] + log[1..];
    }
  }

  /** Nothing but pool allocation can fail. */
  ghost predicate FaultFree(m: Machine, c: Call)
  {
    && (c.userMode ==> m.readProbe.None? && m.writeProbe.None?)
    && forall i :: 0 <= i < |c.source| ==> !m.sourceFaults(i) && !m.mapFails(i) && m.writeFaults(i).None?
  }

  /** The plan splits into what has been attempted and what the loop will attempt. */
  ghost predicate Follows(m: Machine, c: Call, plan: seq<Attempt>, log: seq<Attempt>, l: Loop)
  {
    AtHead(c, l) && plan == log + Attempts(m, c, l)
  }

  lemma PlanStep(m: Machine, c: Call, plan: seq<Attempt>, log: seq<Attempt>, l: Loop)
    requires Follows(m, c, plan, log, l) && l.done < |c.source|
    ensures var (b, next) := NextAttempt(m, c, l);
            if Clean(m, c, b) then Follows(m, c, plan, log + [b], next) else plan == log + [b]
  {
    var (b, next) := NextAttempt(m, c, l);
    if Clean(m, c, b) { assert log + ([b] + Attempts(m, c, next)) == (log + [b]) + Attempts(m, c, next); }
  }

  // ----- the outcome of a plan -----

  /** What the caller is told after the given attempts. */
  ghost function Told(m: Machine, c: Call, log: seq<Attempt>): Outcome
  {
    if log == [] || Clean(m, c, log[|log| - 1]) then Success(|c.source|)
    else Report(c, log[|log| - 1], FirstFault(m, c, log[|log| - 1]))
  }

  /** What the target holds after the given attempts. */
  ghost function Left(m: Machine, c: Call, log: seq<Attempt>, was: seq<Byte>): seq<Byte>
    requires |was| == |c.source| && (log != [] ==> log[|log| - 1].End() <= |was|)
  {
    if log == [] || Clean(m, c, log[|log| - 1]) then c.source
    else
      var b := log[|log| - 1];
      After(c, b, FirstFault(m, c, b), Progress(c, was, b.offset))
  }

  /** One turn of the loop: a clean block moves on along the plan, any other ends it. */
  lemma PlanTurn(m: Machine, c: Call, plan: seq<Attempt>, log: seq<Attempt>, l: Loop, was: seq<Byte>, now: seq<Byte>)
    requires Follows(m, c, plan, log, l) && l.done < |c.source| && |was| == |c.source| && now == Progress(c, was, l.done)
    ensures var (b, next) := NextAttempt(m, c, l);
            var f := FirstFault(m, c, b);
            if f.NoFault? then
              && Follows(m, c, plan, log + [b], next)
              && After(c, b, f, now) == Progress(c, was, b.End())
            else
              && plan == log + [b] && Told(m, c, plan) == Report(c, b, f) && Left(m, c, plan, was) == After(c, b, f, now)
  {
    PlanStep(m, c, plan, log, l);
    CopiedProgresses(c, NextAttempt(m, c, l).0, was);
  }

  /** At the end of a clean run nothing of the plan is left and the target is the source. */
  lemma PlanDone(m: Machine, c: Call, plan: seq<Attempt>, log: seq<Attempt>, l: Loop, was: seq<Byte>)
    requires Follows(m, c, plan, log, l) && l.done == |c.source| == |was|
    requires log != [] ==> log[|log| - 1].End() == l.done && Clean(m, c, log[|log| - 1])
    ensures log == plan && (plan != [] ==> plan[|plan| - 1].End() <= |was|)
    ensures Told(m, c, plan) == Success(|c.source|) && Left(m, c, plan, was) == Progress(c, was, |was|)
  {
  }

  lemma PlanFacts(m: Machine, c: Call, plan: seq<Attempt>, tried: nat)
    requires plan == Plan(m, c, tried)
    ensures Tiles(plan, 0, MAX_BLOCK) && Covers(m, c, plan, 0)
    ensures (forall b :: b in plan ==> Clean(m, c, b)) <==> Told(m, c, plan).Success?
    ensures FaultFree(m, c) ==> Told(m, c, plan).Success?
  {
    AttemptsTileAndCover(m, c, Start(c, tried));
    LastDecides(m, c, plan, 0);
  }
}
