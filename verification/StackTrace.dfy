/** KphCaptureStackBackTrace of KSystemHacker/thread.c, in 32-bit arithmetic. */
module StackTrace {
  import opened Common

  const MAX_STACK_DEPTH: nat := 256
  const RTL_WALK_VALID_FLAGS: bv32 := 1

  predicate ValidFlags(flags: bv32) { flags & RTL_WALK_VALID_FLAGS == flags }

  /** Only the walk over user frames may be asked for. */
  lemma ValidFlagsExact(flags: bv32)
    ensures ValidFlags(flags) <==> flags == 0 || flags == 1
  {
  }

  /** Sum of the low words of the addresses, modulo 2^32. */
  function Hash(frames: seq<nat>): nat
  {
    if frames == [] then 0 else (Hash(frames[..|frames| - 1]) + frames[|frames| - 1] % TWO32) % TWO32
  }

  function Sum(frames: seq<nat>): nat { if frames == [] then 0 else Sum(frames[..|frames| - 1]) + frames[|frames| - 1] }

  /** It is the low word of the sum of the addresses. */
  lemma {:induction false} HashIsSum(frames: seq<nat>)
    ensures Hash(frames) == Sum(frames) % 0x1_0000_0000
  {
    if frames != [] {
      HashIsSum(frames[..|frames| - 1]);
      AddLowWords(Sum(frames[..|frames| - 1]), frames[|frames| - 1]);
    }
  }

  lemma AddLowWords(x: nat, y: nat)
    ensures (x % TWO32 + y % TWO32) % TWO32 == (x + y) % TWO32
  {
  }

  /** RtlWalkFrameChain fills at most `count` entries of the local array. */
  method WalkFrameChain(buffer: array<nat>, count: nat, stack: seq<nat>) returns (found: nat)
    requires count <= buffer.Length
    modifies buffer
    ensures found == (if |stack| < count then |stack| else count) && buffer[..found] == stack[..found]
  {
    found := if |stack| < count then |stack| else count;
    forall i | 0 <= i < found { buffer[i] := stack[i]; }
  }

  /** Lines 294-301: copy and hash until the output or the walk is exhausted. */
  method CopyFrames(frames: array<nat>, found: nat, toSkip: nat, captureCount: nat, backTrace: array<nat>)
    returns (i: nat, hash: nat)
    requires frames != backTrace && toSkip < found <= frames.Length == MAX_STACK_DEPTH && captureCount == backTrace.Length
    modifies backTrace
    ensures i == (if found - toSkip < captureCount then found - toSkip else captureCount)
    ensures backTrace[..i] == frames[toSkip..toSkip + i] && backTrace[i..] == old(backTrace[i..])
    ensures hash == Hash(backTrace[..i])
  {
    i, hash := 0, 0;
    while i < captureCount
      invariant i <= captureCount && toSkip + i <= found
      invariant backTrace[..i] == frames[toSkip..toSkip + i]
      invariant forall j :: i <= j < backTrace.Length ==> backTrace[j] == old(backTrace[j])
      invariant hash == Hash(backTrace[..i])
    {
      if (toSkip + i) % TWO32 >= found { break; }
      backTrace[i] := frames[toSkip + i];
      hash := (hash + backTrace[i] % TWO32) % TWO32;
      assert backTrace[..i + 1][..i] == backTrace[..i];
      i := i + 1;
    }
  }

  /** Frames inside the walk are the walked ones. */
  lemma SameFrames(frames: seq<nat>, stack: seq<nat>, found: nat, toSkip: nat, n: nat)
    requires found <= |frames| && found <= |stack| && frames[..found] == stack[..found] && toSkip + n <= found
    ensures frames[toSkip..toSkip + n] == stack[toSkip..toSkip + n]
  {
    assert frames[toSkip..toSkip + n] == frames[..found][toSkip..toSkip + n];
    assert stack[toSkip..toSkip + n] == stack[..found][toSkip..toSkip + n];
  }

  /** The skip count after the unsigned increment on line 273. */
  function Skipped(skip: nat): nat { (skip + 1) % TWO32 }

  /** One frame more than asked for, except that the largest count wraps to none. */
  lemma SkippedExact(skip: nat)
    requires skip < TWO32
    ensures Skipped(skip) == if skip == 0xFFFF_FFFF then 0 else skip + 1
  {
  }

  /** A sum that wraps is below what is to be skipped. */
  lemma WrappedSum(x: nat, toSkip: nat)
    requires x < TWO32 && toSkip < TWO32
    ensures if x + toSkip < TWO32 then (x + toSkip) % TWO32 == x + toSkip else (x + toSkip) % TWO32 < toSkip
  {
  }

  /**
   `stack` is what a walk without limit would find. For every skip and capture
   count the answer is the walked frames from the wrapped skip onward: no frame
   outside the walk is read and nothing past `captureCount` is written.
   */
  method CaptureStackBackTrace(skip: nat, captureCount: nat, flags: bv32, backTrace: array<nat>, stack: seq<nat>)
    returns (captured: nat, hash: Option<nat>)
    requires skip < TWO32 && captureCount < TWO32 && backTrace.Length == captureCount
    modifies backTrace
    ensures captured <= captureCount && backTrace[captured..] == old(backTrace[captured..])
    ensures captured > 0 <==>
              && captureCount > 0 && Skipped(skip) < |stack| && Skipped(skip) + captureCount <= 256
              && (flags == 0 || flags == 1)
    ensures captured > 0 ==>
              && var available := |stack| - Skipped(skip);
              && captured == (if available < captureCount then available else captureCount)
              && backTrace[..captured] == stack[Skipped(skip)..Skipped(skip) + captured]
              && hash == Some(Hash(backTrace[..captured]))
    ensures captured == 0 ==> hash == None
  {
    var frames := new nat[MAX_STACK_DEPTH];
    var toSkip := (skip + 1) % TWO32;
    WrappedSum(captureCount, toSkip);
    ValidFlagsExact(flags);
    if (captureCount + toSkip) % TWO32 > MAX_STACK_DEPTH { return 0, None; }
    if !ValidFlags(flags) { return 0, None; }
    var found := WalkFrameChain(frames, (captureCount + toSkip) % TWO32, stack);
    if found <= toSkip { return 0, None; }
    var h;
    captured, h := CopyFrames(frames, found, toSkip, captureCount, backTrace);
    SameFrames(frames[..], stack, found, toSkip, captured);
    return captured, Some(h);
  }
}
