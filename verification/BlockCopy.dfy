/**
 KphCopyVirtualMemory of KSystemHacker/vm.c: a block loop over three staging
 strategies, with faults possible at almost every point. The methods attempt
 exactly the blocks of CopyPlan, and give back every resource on every way out.
 */
module BlockCopy {
  import opened Common
  import opened CopyPlan
  import opened CopyOutcome

  /** Page-frame entries that fit behind the MDL header in `mdlBuffer`. */
  const MDL_ENTRIES: nat := MAPPED_COPY_PAGES + 1

  /** Pages touched by `size` bytes at `address`. */
  function SpanPages(address: nat, size: nat): nat
  {
    (address % PAGE_SIZE + size + PAGE_SIZE - 1) / PAGE_SIZE
  }

  ghost predicate ValidCall(c: Call, target: array<Byte>)
  {
    |c.source| == target.Length < TWO64 && c.fromAddress < TWO64 && c.toAddress < TWO64
  }

  /** Memory of block `b` was accessed, as the source or as the target, in the process attached at that point. */
  datatype Touch = Touch(process: nat, target: bool, b: Attempt)

  /**
   The source is only accessed in the process it belongs to, and the target in the
   other; every block attempted was read, and every clean one written.
   */
  ghost predicate RightPlaces(m: Machine, c: Call, log: seq<Attempt>, touched: seq<Touch>)
  {
    && (forall t :: t in touched ==> t.process == if t.target then c.toProcess else c.fromProcess)
    && (forall b :: b in log ==> Touch(c.fromProcess, false, b) in touched)
    && (forall b :: b in log && Clean(m, c, b) ==> Touch(c.toProcess, true, b) in touched)
  }

  /** The accesses of one more block. */
  ghost predicate OneBlock(m: Machine, c: Call, b: Attempt, before: seq<Touch>, after: seq<Touch>)
  {
    var read, write := Touch(c.fromProcess, false, b), Touch(c.toProcess, true, b);
    after == before + [read] + [write] || (after == before + [read] && !Clean(m, c, b))
  }

  lemma StaysRight(m: Machine, c: Call, b: Attempt, log: seq<Attempt>, before: seq<Touch>, after: seq<Touch>)
    requires RightPlaces(m, c, log, before) && OneBlock(m, c, b, before, after)
    ensures RightPlaces(m, c, log + [b], after)
  {
  }

  /** Kernel resources. Releasing something that is not held is a violated precondition. */
  class Kernel {
    var attached: seq<nat>
    var pool: map<nat, nat>
    var attempts: nat
    var mdlPages: nat
    var mdlLocked: bool
    var mdlMapped: bool
    ghost var log: seq<Attempt> // the blocks attempted by the current call
    ghost var touched: seq<Touch> // the accesses of the current call

    ghost predicate Valid()
      reads this
    {
      && (forall id :: id in pool ==> id < attempts)
      && (mdlMapped ==> mdlLocked)
    }

    ghost method Record(b: Attempt)
      modifies this`log
      ensures log == old(log) + [b]
    {
      log := log + [b];
    }

    /** Memory is accessed in whatever process is attached. */
    ghost method Access(target: bool, b: Attempt)
      requires attached != []
      modifies this`touched
      ensures touched == old(touched) + [Touch(attached[|attached| - 1], target, b)]
    {
      touched := touched + [Touch(attached[|attached| - 1], target, b)];
    }

    /** A new call starts with empty records. */
    ghost method Clear()
      modifies this`log, this`touched
      ensures log == [] && touched == []
    {
      log, touched := [], [];
    }

    method Attach(process: nat)
      modifies this`attached
      ensures attached == old(attached) + [process]
    {
      attached := attached + [process];
    }

    method Detach()
      requires attached != []
      modifies this`attached
      ensures attached == old(attached)[..|old(attached)| - 1]
    {
      attached := attached[..|attached| - 1];
    }

    method AllocatePool(m: Machine, size: nat) returns (r: Option<nat>)
      requires Valid()
      modifies this`pool, this`attempts
      ensures Valid() && attempts == old(attempts) + 1
      ensures r.Some? == m.allocates(old(attempts))
      ensures match r
              case None => pool == old(pool)
              case Some(id) => id !in old(pool) && pool == old(pool)[id := size]
    {
      r := None;
      if m.allocates(attempts) {
        r := Some(attempts);
        pool := pool[attempts := size];
      }
      attempts := attempts + 1;
    }

    method FreePool(id: nat)
      requires Valid() && id in pool
      modifies this`pool
      ensures Valid() && pool == old(pool) - {id}
    {
      pool := pool - {id};
    }

    method InitializeMdl(address: nat, size: nat)
      requires !mdlLocked && SpanPages(address, size) <= MDL_ENTRIES
      modifies this`mdlPages
      ensures mdlPages == SpanPages(address, size)
    {
      mdlPages := SpanPages(address, size);
    }

    method LockPages()
      requires !mdlLocked && mdlPages <= MDL_ENTRIES
      modifies this`mdlLocked
      ensures mdlLocked
    {
      mdlLocked := true;
    }

    method MapPages()
      requires mdlLocked && !mdlMapped
      modifies this`mdlMapped
      ensures mdlMapped
    {
      mdlMapped := true;
    }

    method UnmapPages()
      requires mdlMapped
      modifies this`mdlMapped
      ensures !mdlMapped
    {
      mdlMapped := false;
    }

    method UnlockPages()
      requires mdlLocked && !mdlMapped
      modifies this`mdlLocked
      ensures !mdlLocked
    {
      mdlLocked := false;
    }
  }

  // ----- one block -----

  /** The local flags the exception handler looks at. */
  datatype Flags = Flags(pagesLocked: bool, mapped: bool, probing: bool, mapping: bool, copyingToTarget: bool)

  datatype Exception = Exception(code: int, haveBad: bool, badAddress: nat)

  /** The exception and the flags tell the handler which fault came first. */
  ghost predicate Tells(raised: Option<Exception>, f: Flags, fault: Fault)
  {
    match fault
    case NoFault => raised.None?
    case ProbeRaised(code) => raised.Some? && f.probing && !f.mapping && raised.value.code == code
    case SourceFaulted => raised.Some? && !f.probing && !f.mapping && !f.copyingToTarget
    case MappingFailed => raised.Some? && f.mapping && !f.probing && raised.value.code == STATUS_INSUFFICIENT_RESOURCES
    case TargetFaulted(w) =>
      && raised.Some? && !f.probing && !f.mapping && f.copyingToTarget
      && raised.value.haveBad == w.haveBad && raised.value.badAddress == w.badAddress
  }

  /** The body of the __try block, lines 180-241. */
  method TryBlock(k: Kernel, m: Machine, c: Call, target: array<Byte>, b: Attempt,
                  sourceAddress: nat, targetAddress: nat, ghost capacity: nat)
    returns (raised: Option<Exception>, f: Flags)
    requires ValidCall(c, target) && k.Valid() && !k.mdlLocked
    requires 0 < b.size && b.End() <= target.Length
    requires sourceAddress == Address(c.fromAddress, b.offset) && targetAddress == Address(c.toAddress, b.offset)
    requires if b.Mapped() then SpanPages(sourceAddress, b.size) <= MDL_ENTRIES else b.size <= capacity
    modifies k, target
    ensures k.Valid() && k.pool == old(k.pool) && k.attempts == old(k.attempts)
    ensures |k.attached| == |old(k.attached)| + 1 && old(k.attached) <= k.attached
    ensures f.pagesLocked == k.mdlLocked && f.mapped == k.mdlMapped
    ensures raised.None? ==> f.pagesLocked == f.mapped == b.Mapped()
    ensures k.log == old(k.log) + [b] && OneBlock(m, c, b, old(k.touched), k.touched)
    ensures Tells(raised, f, FirstFault(m, c, b))
    ensures target[..] == After(c, b, FirstFault(m, c, b), old(target[..]))
  {
    k.Record(b);
    var staged;
    raised, f, staged := ReadSource(k, m, c, b, sourceAddress, capacity);
    if raised.Some? { return; }
    k.Detach();
    raised, f := WriteTarget(k, m, c, target, b, targetAddress, staged, f);
  }

  /** Lines 180-222: probe, lock and map, or copy to the staging buffer. */
  method ReadSource(k: Kernel, m: Machine, c: Call, b: Attempt, sourceAddress: nat, ghost capacity: nat)
    returns (raised: Option<Exception>, f: Flags, staged: seq<Byte>)
    requires k.Valid() && !k.mdlLocked && b.End() <= |c.source| < TWO64 && c.fromAddress < TWO64
    requires 0 < b.size && sourceAddress == Address(c.fromAddress, b.offset)
    requires if b.Mapped() then SpanPages(sourceAddress, b.size) <= MDL_ENTRIES else b.size <= capacity
    modifies k`attached, k`touched, k`mdlPages, k`mdlLocked, k`mdlMapped
    ensures k.Valid() && k.attached == old(k.attached) + [c.fromProcess]
    ensures k.touched == old(k.touched) + [Touch(c.fromProcess, false, b)]
    ensures f.pagesLocked == k.mdlLocked && f.mapped == k.mdlMapped && !f.copyingToTarget
    ensures Tells(raised, f, SourceFault(m, c, b))
    ensures raised.None? ==>
              && f == Flags(b.Mapped(), b.Mapped(), false, false, false) && staged == c.source[b.offset..b.End()]
  {
    f, staged := Flags(false, false, false, false, false), [];
    OnlyFirstBlock(c.fromAddress, b.offset);
    k.Attach(c.fromProcess);
    k.Access(false, b);
    if sourceAddress == c.fromAddress && c.userMode {
      f := f.(probing := true);
      if m.readProbe.Some? { return Some(Exception(m.readProbe.value, false, 0)), f, staged; }
      f := f.(probing := false);
    }
    if b.Mapped() {
      k.InitializeMdl(sourceAddress, b.size);
      if m.sourceFaults(b.offset) { return Some(Exception(0, false, 0)), f, staged; }
      k.LockPages();
      f := f.(pagesLocked := true);
      if m.mapFails(b.offset) {
        f := f.(mapping := true);
        return Some(Exception(STATUS_INSUFFICIENT_RESOURCES, false, 0)), f, staged;
      }
      k.MapPages();
      f := f.(mapped := true);
    } else {
      if m.sourceFaults(b.offset) { return Some(Exception(0, false, 0)), f, staged; }
    }
    staged := c.source[b.offset..b.End()];
    raised := None;
  }

  /** Lines 223-240: attach to the other process, probe and write. */
  method WriteTarget(k: Kernel, m: Machine, c: Call, target: array<Byte>, b: Attempt,
                     targetAddress: nat, staged: seq<Byte>, f0: Flags)
    returns (raised: Option<Exception>, f: Flags)
    requires ValidCall(c, target) && b.End() <= target.Length && staged == c.source[b.offset..b.End()]
    requires targetAddress == Address(c.toAddress, b.offset) && !f0.probing && !f0.mapping && !f0.copyingToTarget
    modifies k`attached, k`touched, target
    ensures k.attached == old(k.attached) + [c.toProcess]
    ensures k.touched == old(k.touched) + [Touch(c.toProcess, true, b)]
    ensures f.pagesLocked == f0.pagesLocked && f.mapped == f0.mapped
    ensures Tells(raised, f, TargetFault(m, c, b))
    ensures target[..] == After(c, b, TargetFault(m, c, b), old(target[..]))
  {
    f := f0;
    OnlyFirstBlock(c.toAddress, b.offset);
    k.Attach(c.toProcess);
    k.Access(true, b);
    if targetAddress == c.toAddress && c.userMode {
      f := f.(probing := true);
      if m.writeProbe.Some? { return Some(Exception(m.writeProbe.value, false, 0)), f; }
      f := f.(probing := false);
    }
    f := f.(copyingToTarget := true);
    CopyOut(c, b, target, staged, m.writeFaults(b.offset));
    raised := None;
    if m.writeFaults(b.offset).Some? {
      var w := m.writeFaults(b.offset).value;
      raised := Some(Exception(0, w.haveBad, w.badAddress));
    }
  }

  /** The memcpy of lines 237-240 into the target, which a fault interrupts. */
  method CopyOut(ghost c: Call, b: Attempt, target: array<Byte>, staged: seq<Byte>, fault: Option<WriteFault>)
    requires |c.source| == target.Length && b.End() <= target.Length && staged == c.source[b.offset..b.End()]
    modifies target
    ensures target[..] == After(c, b, if fault.None? then NoFault else TargetFaulted(fault.value), old(target[..]))
  {
    forall i | b.offset <= i < b.End() && (fault.None? || fault.value.landed(i)) { target[i] := staged[i - b.offset]; }
  }

  /** The pointer comparison that limits probing to the first block is exact. */
  lemma OnlyFirstBlock(address: nat, done: nat)
    requires address < TWO64 && done < TWO64
    ensures Address(address, done) == address <==> done == 0
  {
  }

  /** Twelve pages of data touch at most thirteen pages, whatever the alignment. */
  lemma MappedBlockSpan(address: nat, size: nat)
    requires size <= MAX_BLOCK
    ensures SpanPages(address, size) <= MAPPED_COPY_PAGES - 1
  {
  }

  // ----- the choice of staging -----

  /** The staging buffer: `None` is the stack buffer, `Some(id)` a pool allocation. */
  type Staging = Option<nat>

  ghost predicate Holds(pool: map<nat, nat>, b: Staging) { b.Some? ==> b.value in pool }

  ghost function Capacity(pool: map<nat, nat>, b: Staging): nat
    requires Holds(pool, b)
  {
    if b.None? then STACK_COPY_BYTES else pool[b.value]
  }

  /** Everything in the pool except the staging buffer. */
  ghost function Others(pool: map<nat, nat>, b: Staging): map<nat, nat>
  {
    if b.None? then pool else pool - {b.value}
  }

  /** Lines 152-170: halve the block until an allocation succeeds or the stack buffer is enough. */
  method AllocateStaging(k: Kernel, m: Machine, blockSize0: nat, ghost done: nat) returns (blockSize: nat, buffer: Staging)
    requires k.Valid() && STACK_COPY_BYTES < blockSize0
    modifies k`pool, k`attempts
    ensures k.Valid() && Holds(k.pool, buffer) && Others(k.pool, buffer) == old(k.pool)
    ensures 0 < blockSize <= Capacity(k.pool, buffer)
    ensures Loop(done, blockSize, buffer.Some?, k.attempts) == Halved(m, Loop(done, blockSize0, false, old(k.attempts)))
  {
    blockSize := blockSize0;
    while true
      invariant k.Valid() && k.pool == old(k.pool) && STACK_COPY_BYTES < blockSize
      invariant Halved(m, Loop(done, blockSize, false, k.attempts)) == Halved(m, Loop(done, blockSize0, false, old(k.attempts)))
      decreases blockSize
    {
      buffer := k.AllocatePool(m, blockSize);
      if buffer.Some? { break; }
      blockSize := blockSize / 2;
      if blockSize <= STACK_COPY_BYTES {
        buffer := None;
        break;
      }
    }
  }

  /** Lines 127-173: trim the block to what is left and pick a way to stage it. */
  method ChooseStaging(k: Kernel, m: Machine, blockSize0: nat, stillToCopy: nat, buffer0: Staging, ghost done: nat)
    returns (blockSize: nat, buffer: Staging)
    requires k.Valid() && 0 < blockSize0 && 0 < stillToCopy
    requires Holds(k.pool, buffer0) && (buffer0.Some? ==> blockSize0 <= Capacity(k.pool, buffer0))
    modifies k`pool, k`attempts
    ensures k.Valid() && Holds(k.pool, buffer)
    ensures Others(k.pool, buffer) == Others(old(k.pool), buffer0)
    ensures buffer.Some? || blockSize <= POOL_COPY_THRESHOLD ==> blockSize <= Capacity(k.pool, buffer)
    ensures Loop(done, blockSize, buffer.Some?, k.attempts)
            == Staged(m, Loop(done, blockSize0, buffer0.Some?, old(k.attempts)), stillToCopy)
  {
    blockSize := Trimmed(blockSize0, stillToCopy);
    buffer := buffer0;
    var doMappedCopy := blockSize > POOL_COPY_THRESHOLD;
    if !doMappedCopy {
      if blockSize <= STACK_COPY_BYTES {
        if buffer.Some? { k.FreePool(buffer.value); }
        buffer := None;
      } else if buffer.None? {
        blockSize, buffer := AllocateStaging(k, m, blockSize, done);
      }
    }
  }

  // ----- the whole copy -----

  /** Lines 175-285: attempt one block; on an exception clean up and report. */
  method CopyBlock(k: Kernel, m: Machine, c: Call, target: array<Byte>, b: Attempt,
                   sourceAddress: nat, targetAddress: nat, buffer: Staging)
    returns (stop: Option<Outcome>)
    requires ValidCall(c, target) && k.Valid() && !k.mdlLocked && Holds(k.pool, buffer)
    requires 0 < b.size <= MAX_BLOCK && b.End() <= target.Length
    requires sourceAddress == Address(c.fromAddress, b.offset) && targetAddress == Address(c.toAddress, b.offset)
    requires !b.Mapped() ==> b.size <= Capacity(k.pool, buffer)
    modifies k, target
    ensures k.Valid() && k.attached == old(k.attached) && !k.mdlLocked && !k.mdlMapped && k.attempts == old(k.attempts)
    ensures k.log == old(k.log) + [b] && OneBlock(m, c, b, old(k.touched), k.touched)
    ensures target[..] == After(c, b, FirstFault(m, c, b), old(target[..]))
    ensures k.pool == if Clean(m, c, b) then old(k.pool) else Others(old(k.pool), buffer)
    ensures stop == if Clean(m, c, b) then None else Some(Report(c, b, FirstFault(m, c, b)))
  {
    MappedBlockSpan(sourceAddress, b.size);
    var raised, f := TryBlock(k, m, c, target, b, sourceAddress, targetAddress, Capacity(k.pool, buffer));
    k.Detach();
    if raised.Some? {
      if f.mapped { k.UnmapPages(); }
      if f.pagesLocked { k.UnlockPages(); }
      if buffer.Some? { k.FreePool(buffer.value); }
      if f.probing || f.mapping { return Some(Failed(raised.value.code)); }
      if f.copyingToTarget && raised.value.haveBad {
        return Some(PartialCopy(TargetFaultLength(raised.value.badAddress, sourceAddress)));
      }
      return Some(PartialCopy(b.offset));
    }
    if b.Mapped() {
      k.UnmapPages();
      k.UnlockPages();
    }
    stop := None;
  }

  /** The head of the loop: nothing of the MDL is held, the buffer fits the block, the pointers are `done` bytes on. */
  ghost predicate Ready(k: Kernel, c: Call, done: nat, blockSize: nat, sourceAddress: nat, targetAddress: nat, buffer: Staging)
    reads k
  {
    && k.Valid() && !k.mdlLocked && Holds(k.pool, buffer)
    && blockSize <= MAX_BLOCK && (buffer.Some? ==> blockSize <= Capacity(k.pool, buffer))
    && sourceAddress == Address(c.fromAddress, done) && targetAddress == Address(c.toAddress, done)
  }

  /** The head of the loop: the blocks so far are those of the plan, all copied, and the rest of the plan is ahead. */
  ghost predicate OnPlan(k: Kernel, m: Machine, c: Call, target: array<Byte>, done: nat, blockSize: nat, buffer: Staging,
                         was: seq<Byte>, plan: seq<Attempt>)
    reads k, target
  {
    && |was| == target.Length == |c.source|
    && Follows(m, c, plan, k.log, Loop(done, blockSize, buffer.Some?, k.attempts))
    && target[..] == Progress(c, was, done)
    && (k.log != [] ==> k.log[|k.log| - 1].End() == done && Clean(m, c, k.log[|k.log| - 1]))
  }

  method AdvancePointer(address: nat, n: nat, ghost base: nat, ghost done: nat) returns (next: nat)
    requires address == Address(base, done)
    ensures next == Address(base, done + n)
  {
    next := (address + n) % TWO64;
  }

  /** Lines 123-285: choose how to stage the next block and attempt it. */
  method StageAndCopy(k: Kernel, m: Machine, c: Call, target: array<Byte>, done: nat, blockSize0: nat,
                      source0: nat, target0: nat, buffer0: Staging)
    returns (blockSize: nat, buffer: Staging, stop: Option<Outcome>)
    requires ValidCall(c, target) && done < target.Length && 0 < blockSize0
    requires Ready(k, c, done, blockSize0, source0, target0, buffer0)
    modifies k, target
    ensures k.Valid() && k.attached == old(k.attached) && !k.mdlLocked
    ensures NextAttempt(m, c, Loop(done, blockSize0, buffer0.Some?, old(k.attempts)))
            == (Attempt(done, blockSize), Loop(done + blockSize, blockSize, buffer.Some?, k.attempts))
    ensures var b := Attempt(done, blockSize); var f := FirstFault(m, c, b);
            && k.log == old(k.log) + [b] && OneBlock(m, c, b, old(k.touched), k.touched) && target[..] == After(c, b, f, old(target[..]))
            && stop == (if f.NoFault? then None else Some(Report(c, b, f)))
    ensures stop.None? ==>
              && Holds(k.pool, buffer) && (buffer.Some? ==> blockSize <= Capacity(k.pool, buffer))
              && Others(k.pool, buffer) == Others(old(k.pool), buffer0)
    ensures stop.Some? ==> k.pool == Others(old(k.pool), buffer0)
  {
    blockSize, buffer := ChooseStaging(k, m, blockSize0, target.Length - done, buffer0, done);
    stop := CopyBlock(k, m, c, target, Attempt(done, blockSize), source0, target0, buffer);
  }

  /** The invariant of the loop; `others` is the pool as the call found it. */
  ghost predicate Underway(k: Kernel, m: Machine, c: Call, target: array<Byte>, done: nat, blockSize: nat,
                           sourceAddress: nat, targetAddress: nat, buffer: Staging,
                           was: seq<Byte>, plan: seq<Attempt>, others: map<nat, nat>)
    reads k, target
  {
    && Ready(k, c, done, blockSize, sourceAddress, targetAddress, buffer)
    && OnPlan(k, m, c, target, done, blockSize, buffer, was, plan)
    && Others(k.pool, buffer) == others
    && RightPlaces(m, c, k.log, k.touched)
  }

  /** The whole plan has been attempted, and caller and target got what it says. */
  ghost predicate Finished(k: Kernel, m: Machine, c: Call, target: array<Byte>, was: seq<Byte>, plan: seq<Attempt>, r: Outcome)
    reads k, target
  {
    && |was| == target.Length == |c.source| && k.log == plan && RightPlaces(m, c, k.log, k.touched)
    && (plan != [] ==> plan[|plan| - 1].End() <= |was|)
    && r == Told(m, c, plan) && target[..] == Left(m, c, plan, was)
  }

  /** One turn of the loop. */
  method NextBlock(k: Kernel, m: Machine, c: Call, target: array<Byte>, done: nat, blockSize0: nat,
                   source0: nat, target0: nat, buffer0: Staging,
                   ghost was: seq<Byte>, ghost plan: seq<Attempt>, ghost others: map<nat, nat>)
    returns (blockSize: nat, sourceAddress: nat, targetAddress: nat, buffer: Staging, stop: Option<Outcome>)
    requires ValidCall(c, target) && done < target.Length
    requires Underway(k, m, c, target, done, blockSize0, source0, target0, buffer0, was, plan, others)
    modifies k, target
    ensures k.attached == old(k.attached)
    ensures stop.None? ==>
              && 0 < blockSize && done + blockSize <= target.Length
              && Underway(k, m, c, target, done + blockSize, blockSize, sourceAddress, targetAddress, buffer, was, plan, others)
    ensures stop.Some? ==>
              && k.Valid() && !k.mdlLocked && k.pool == others && Finished(k, m, c, target, was, plan, stop.value)
  {
    ghost var l, log, before := Loop(done, blockSize0, buffer0.Some?, k.attempts), k.log, target[..];
    ghost var touched := k.touched;
    blockSize, buffer, stop := StageAndCopy(k, m, c, target, done, blockSize0, source0, target0, buffer0);
    PlanTurn(m, c, plan, log, l, was, before);
    StaysRight(m, c, Attempt(done, blockSize), log, touched, k.touched);
    sourceAddress := AdvancePointer(source0, blockSize, c.fromAddress, done);
    targetAddress := AdvancePointer(target0, blockSize, c.toAddress, done);
  }

  /** Lines 120-297, following the plan. */
  method CopyBlocks(k: Kernel, m: Machine, c: Call, target: array<Byte>, mappedTotalSize: nat, ghost plan: seq<Attempt>)
    returns (r: Outcome)
    requires ValidCall(c, target) && Ready(k, c, 0, mappedTotalSize, c.fromAddress, c.toAddress, None)
    requires OnPlan(k, m, c, target, 0, mappedTotalSize, None, target[..], plan) && RightPlaces(m, c, k.log, k.touched)
    modifies k, target
    ensures k.Valid() && k.attached == old(k.attached) && k.pool == old(k.pool) && !k.mdlLocked
    ensures Finished(k, m, c, target, old(target[..]), plan, r)
  {
    var sourceAddress, targetAddress := c.fromAddress, c.toAddress;
    var buffer: Staging := None;
    var stillToCopy: nat, blockSize: nat := target.Length, mappedTotalSize;
    var done: nat := 0; // BufferLength - stillToCopy
    ghost var was := target[..];
    while stillToCopy > 0
      invariant done == target.Length - stillToCopy && k.attached == old(k.attached)
      invariant Underway(k, m, c, target, done, blockSize, sourceAddress, targetAddress, buffer, was, plan, old(k.pool))
    {
      var stop;
      blockSize, sourceAddress, targetAddress, buffer, stop :=
        NextBlock(k, m, c, target, done, blockSize, sourceAddress, targetAddress, buffer, was, plan, old(k.pool));
      if stop.Some? { return stop.value; }
      done := done + blockSize;
      stillToCopy := stillToCopy - blockSize;
    }
    r := Success(target.Length);
    NothingLeft(k, m, c, target, done, blockSize, buffer, was, plan);
    FreeBuffer(k, buffer);
  }

  /** Lines 292-293: a pool buffer that is still held is freed. */
  method FreeBuffer(k: Kernel, buffer: Staging)
    requires k.Valid() && Holds(k.pool, buffer)
    modifies k`pool
    ensures k.Valid() && k.pool == Others(old(k.pool), buffer)
  {
    if buffer.Some? { k.FreePool(buffer.value); }
  }

  lemma NothingLeft(k: Kernel, m: Machine, c: Call, target: array<Byte>, done: nat, blockSize: nat, buffer: Staging,
                    was: seq<Byte>, plan: seq<Attempt>)
    requires OnPlan(k, m, c, target, done, blockSize, buffer, was, plan) && done == target.Length
    requires RightPlaces(m, c, k.log, k.touched)
    ensures Finished(k, m, c, target, was, plan, Success(done))
  {
    PlanDone(m, c, plan, k.log, Loop(done, blockSize, buffer.Some?, k.attempts), was);
  }

  method CopyVirtualMemory(k: Kernel, m: Machine, c: Call, target: array<Byte>) returns (r: Outcome)
    requires ValidCall(c, target) && k.Valid() && !k.mdlLocked
    modifies k, target
    // every resource is given back on every way out
    ensures k.Valid() && k.attached == old(k.attached) && k.pool == old(k.pool) && !k.mdlLocked && !k.mdlMapped
    // the blocks attempted are those of the plan: adjacent, positive, at most twelve pages, never growing
    ensures k.log == Plan(m, c, old(k.attempts))
    ensures Tiles(k.log, 0, MAX_BLOCK) && Covers(m, c, k.log, 0)
    // the source is accessed in its own process and the target in the other
    ensures RightPlaces(m, c, k.log, k.touched)
    // success means that no probe and no access of a block attempted failed, and then all is copied
    ensures r.Success? <==>
              && (c.userMode && |c.source| > 0 ==> m.readProbe.None? && m.writeProbe.None?)
              && forall b :: b in k.log ==>
                   && !m.sourceFaults(b.offset) && (b.size > 0x3ff ==> !m.mapFails(b.offset)) && m.writeFaults(b.offset).None?
    ensures r.Success? ==> r == Success(|c.source|) && target[..] == c.source
    // a failing probe stops the copy before anything is written
    ensures c.userMode && |c.source| > 0 && m.readProbe.Some? ==> r == Failed(m.readProbe.value) && target[..] == old(target[..])
    ensures c.userMode && |c.source| > 0 && m.readProbe.None? && m.writeProbe.Some? ==>
              && target[..] == old(target[..])
              && r == if m.sourceFaults(0) then PartialCopy(0)
                      else if |c.source| > 0x3ff && m.mapFails(0) then Failed(STATUS_INSUFFICIENT_RESOURCES)
                      else Failed(m.writeProbe.value)
    // otherwise the last block, the only one with a fault, decides what is told and left
    ensures k.log != [] ==> k.log[|k.log| - 1].End() <= |c.source|
    ensures r == Told(m, c, k.log) && target[..] == Left(m, c, k.log, old(target[..]))
    ensures FaultFree(m, c) ==> r.Success?
  {
    var mappedTotalSize := MAX_BLOCK;
    if mappedTotalSize > target.Length { mappedTotalSize := target.Length; }
    k.Clear();
    ghost var plan := Plan(m, c, k.attempts);
    ghost var was := target[..];
    assert Progress(c, was, 0) == was;
    r := CopyBlocks(k, m, c, target, mappedTotalSize, plan);
    CopyFacts(m, c, old(k.attempts), was);
  }

  lemma CopyFacts(m: Machine, c: Call, tried: nat, was: seq<Byte>)
    requires |was| == |c.source|
    ensures var plan := Plan(m, c, tried); var r := Told(m, c, plan);
            && Tiles(plan, 0, MAX_BLOCK) && Covers(m, c, plan, 0)
            && (plan != [] ==> plan[|plan| - 1].End() <= |was|)
            && (FaultFree(m, c) ==> r.Success?)
            && (r.Success? <==>
                  && (c.userMode && |c.source| > 0 ==> m.readProbe.None? && m.writeProbe.None?)
                  && forall b :: b in plan ==>
                       && !m.sourceFaults(b.offset) && (b.size > 0x3ff ==> !m.mapFails(b.offset)) && m.writeFaults(b.offset).None?)
            && (r.Success? ==> r == Success(|c.source|) && Left(m, c, plan, was) == c.source)
            && (c.userMode && |c.source| > 0 && m.readProbe.Some? ==>
                  r == Failed(m.readProbe.value) && Left(m, c, plan, was) == was)
            && (c.userMode && |c.source| > 0 && m.readProbe.None? && m.writeProbe.Some? ==>
                  && Left(m, c, plan, was) == was
                  && r == if m.sourceFaults(0) then PartialCopy(0)
                          else if |c.source| > 0x3ff && m.mapFails(0) then Failed(STATUS_INSUFFICIENT_RESOURCES)
                          else Failed(m.writeProbe.value))
  {
    PlanFacts(m, c, Plan(m, c, tried), tried);
    LastBlock(m, c, tried);
    SuccessExact(m, c, tried, was);
    if c.userMode && |c.source| > 0 && m.readProbe.Some? { ReadProbeStops(m, c, tried, was); }
    if c.userMode && |c.source| > 0 && m.readProbe.None? && m.writeProbe.Some? { WriteProbeStops(m, c, tried, was); }
  }
}
