/**
 The verification and key protocol of KSystemHacker/verify.c as a step system.

 Any number of threads share one `KPH_CLIENT`. Every read or write of a client
 field, every mutex operation and every random draw is a step of its own, so an
 event sequence is an arbitrary interleaving under sequential consistency. An
 event that cannot happen (a blocked acquire, a busy thread starting a second
 call, an answer the operating system never gives) leaves the state unchanged,
 which makes every event sequence a run.
 */
module ClientProtocol {
  import opened Common

  type Tid = nat
  type NtStatus = int

  predicate NtSuccess(status: NtStatus) { status >= 0 }

  const STATUS_SUCCESS: NtStatus := 0
  const STATUS_ACCESS_VIOLATION: NtStatus := 0xC000_0005 - TWO32
  const STATUS_INVALID_PARAMETER: NtStatus := 0xC000_000D - TWO32

  const MM_HIGHEST_USER_ADDRESS: nat := 0x7FFF_FFFE_FFFF
  const KEY_BIT: nat := 0x8000_0000
  const RANDOM_MAX: nat := 0x7FFF_FFFE    // RtlRandomEx answers in [0, MAXLONG - 1]
  const NO_SECURITY_KEY: nat := TWO32 - 1 // the literal -1 converted to a KPH_KEY

  /** What the system answers while `KphVerifyClient` inspects the caller. */
  datatype Query = Query(
    codeAddress: nat, process: nat, pid: nat,
    locate: NtStatus, query: NtStatus, isImage: bool, isCommitted: bool,
    mappedName: NtStatus, sameFile: bool, base: nat, size: nat)

  /** The memory manager only reports regions inside the user address range. */
  predicate SystemAnswer(q: Query)
  {
    q.base + q.size <= MM_HIGHEST_USER_ADDRESS + 1
  }

  /** The status computed before the mutex is taken, with `NO_SECURITY` defined. */
  function VerifyStatus(q: Query): NtStatus
  {
    if q.codeAddress > MM_HIGHEST_USER_ADDRESS then STATUS_ACCESS_VIOLATION
    else if !NtSuccess(q.locate) then q.locate
    else if !NtSuccess(q.query) then q.query
    else if !q.isImage || !q.isCommitted then STATUS_INVALID_PARAMETER
    else if !NtSuccess(q.mappedName) then q.mappedName
    else if !q.sameFile then STATUS_INVALID_PARAMETER
    else STATUS_SUCCESS
  }

  predicate Passes(q: Query) { NtSuccess(VerifyStatus(q)) }

  datatype Client = Client(
    performed: bool, succeeded: bool, keysGenerated: bool, status: NtStatus,
    process: nat, pid: nat, base: nat, size: nat, l1: nat, l2: nat)

  datatype Request = Request(level: int, process: nat, pid: nat, routine: nat)

  /** `granted` records whether the key had already been handed out when the check began. */
  datatype Validation = Validation(level: int, key: nat, kernelMode: bool, granted: bool)

  /** The client fields a retrieval saw on its way through lines 408-427. */
  datatype Seen = Seen(process: nat, pid: nat, low: nat, highBase: nat, highSize: nat)

  /**
   Where a thread stands. `line` is the line of verify.c it runs next; a second
   read or write on the same line gets the number after it.
   */
  datatype Pc =
    | Idle
    | Verifying(line: nat, q: Query)
    | Retrieving(line: nat, r: Request, seen: Seen)
    | Generating(line: nat, r: Request, seen: Seen, k1: nat, k2: nat)
    | Validating(line: nat, v: Validation)

  datatype Grant = Grant(request: Request, seen: Seen, key: nat)
  /** An answer, and the two flags the check saw; a flag it did not come to counts as not seen. */
  datatype Check = Check(v: Validation, sawSucceeded: bool, sawGenerated: bool, ok: bool)

  /** What has happened so far; no step reads it, except to fill `Validation.granted`. */
  datatype History = History(entered: seq<Query>, published: bool, grants: seq<Grant>, checks: seq<Check>)

  datatype State = State(c: Client, mutex: Option<Tid>, pcs: map<Tid, Pc>, h: History)

  datatype Call = Verify(q: Query) | Retrieve(r: Request) | Validate(level: int, key: nat, kernelMode: bool)

  /** `draw` is the next answer of `RtlRandomEx`, used only by the two drawing steps. */
  datatype Event = Begin(t: Tid, call: Call) | Step(t: Tid, draw: nat)

  function Init(): State
  {
    State(Client(false, false, false, 0, 0, 0, 0, 0, 0, 0), None, map[], History([], false, [], []))
  }

  function At(s: State, t: Tid): Pc { if t in s.pcs then s.pcs[t] else Idle }

  function Goto(s: State, t: Tid, pc: Pc): State { s.(pcs := s.pcs[t := pc]) }

  predicate HandedOut(h: History, key: nat)
  {
    exists i :: 0 <= i < |h.grants| && h.grants[i].key == key
  }

  function Start(s: State, t: Tid, call: Call): State
  {
    match call
    case Verify(q) => if SystemAnswer(q) then Goto(s, t, Verifying(258, q)) else s
    case Retrieve(r) => Goto(s, t, Retrieving(408, r, Seen(0, 0, 0, 0, 0)))
    case Validate(level, key, kernelMode) =>
      Goto(s, t, Validating(457, Validation(level, key, kernelMode, HandedOut(s.h, key))))
  }

  function Next(s: State, e: Event): State
  {
    match e
    case Begin(t, call) => if At(s, t).Idle? then Start(s, t, call) else s
    case Step(t, draw) =>
      match At(s, t)
      case Idle => s
      case Verifying(line, q) => VerifyStep(s, t, line, q)
      case Retrieving(line, r, seen) => RetrieveStep(s, t, line, r, seen)
      case Generating(line, r, seen, k1, k2) => GenerateStep(s, t, line, r, seen, k1, k2, draw)
      case Validating(line, v) => ValidateStep(s, t, line, v)
  }

  function Run(evs: seq<Event>): State
  {
    if evs == [] then Init() else Next(Run(evs[..|evs| - 1]), evs[|evs| - 1])
  }

  /** KphVerifyClient, lines 258-316. */
  function VerifyStep(s: State, t: Tid, line: nat, q: Query): State
  {
    var c := s.c;
    match line
    case 258 =>
      if c.performed then Goto(s, t, Idle)
      else Goto(s.(h := s.h.(entered := s.h.entered + [q])), t, Verifying(301, q))
    case 301 =>
      if s.mutex.Some? then s
      else Goto(s.(mutex := Some(t)), t, Verifying(if Passes(q) then 305 else 311, q))
    case 305 => Goto(s.(c := c.(process := q.process)), t, Verifying(306, q))
    case 306 => Goto(s.(c := c.(pid := q.pid)), t, Verifying(307, q))
    case 307 => Goto(s.(c := c.(base := q.base)), t, Verifying(308, q))
    case 308 => Goto(s.(c := c.(size := q.size)), t, Verifying(311, q))
    case 311 => Goto(s.(c := c.(status := VerifyStatus(q))), t, Verifying(313, q))
    case 313 =>
      var h := s.h.(published := s.h.published || Passes(q));
      Goto(s.(c := c.(succeeded := Passes(q)), h := h), t, Verifying(314, q))
    case 314 => Goto(s.(c := c.(performed := true)), t, Verifying(316, q))
    case 316 => Goto(s.(mutex := None), t, Idle)
    case _ => s
  }

  function RangeEnd(base: nat, size: nat): nat { (base + size) % TWO64 }

  /** KphRetrieveKeyViaApc, lines 408-443, except the call at line 429. */
  function RetrieveStep(s: State, t: Tid, line: nat, r: Request, seen: Seen): State
  {
    var c := s.c;
    match line
    case 408 => Goto(s, t, if c.succeeded then Retrieving(413, r, seen) else Idle)
    case 413 =>
      Goto(s, t, if r.process != c.process then Idle else Retrieving(414, r, seen.(process := c.process)))
    case 414 =>
      Goto(s, t, if r.pid != c.pid || r.routine == 0 then Idle else Retrieving(423, r, seen.(pid := c.pid)))
    case 423 => Goto(s, t, if r.routine < c.base then Idle else Retrieving(424, r, seen.(low := c.base)))
    case 424 => Goto(s, t, Retrieving(425, r, seen.(highBase := c.base)))
    case 425 =>
      Goto(s, t, if r.routine >= RangeEnd(seen.highBase, c.size) then Idle
                 else Generating(373, r, seen.(highSize := c.size), 0, 0))
    case 431 =>
      if r.level == 1 then Hand(s, t, r, seen, c.l1)
      else if r.level == 2 then Hand(s, t, r, seen, c.l2)
      else Goto(s, t, Idle)
    case _ => s
  }

  function Hand(s: State, t: Tid, r: Request, seen: Seen, key: nat): State
  {
    Goto(s.(h := s.h.(grants := s.h.grants + [Grant(r, seen, key)])), t, Idle)
  }

  /** A draw below 2^31 with its top bit forced on. */
  function MakeKey(draw: nat): nat { KEY_BIT + draw }

  /** KphGenerateKeysClient, lines 373-394, returning into the retrieval that called it. */
  function GenerateStep(s: State, t: Tid, line: nat, r: Request, seen: Seen, k1: nat, k2: nat, draw: nat): State
  {
    var c := s.c;
    match line
    case 373 => Goto(s, t, if c.keysGenerated then Retrieving(431, r, seen) else Generating(378, r, seen, 0, 0))
    case 378 => if draw > RANDOM_MAX then s else Goto(s, t, Generating(381, r, seen, MakeKey(draw), 0))
    case 381 =>
      if draw > RANDOM_MAX || MakeKey(draw) == k1 then s else Goto(s, t, Generating(384, r, seen, k1, MakeKey(draw)))
    case 384 =>
      if s.mutex.Some? then s else Goto(s.(mutex := Some(t)), t, Generating(386, r, seen, k1, k2))
    case 386 => Goto(s, t, Generating(if c.keysGenerated then 394 else 388, r, seen, k1, k2))
    case 388 => Goto(s.(c := c.(l1 := k1)), t, Generating(389, r, seen, k1, k2))
    case 389 => Goto(s.(c := c.(l2 := k2)), t, Generating(391, r, seen, k1, k2))
    case 391 => Goto(s.(c := c.(keysGenerated := true)), t, Generating(394, r, seen, k1, k2))
    case 394 => Goto(s.(mutex := None), t, Retrieving(431, r, seen))
    case _ => s
  }

  /** KphValidateKey, lines 457-488. */
  function ValidateStep(s: State, t: Tid, line: nat, v: Validation): State
  {
    var c := s.c;
    match line
    case 457 =>
      if v.kernelMode || v.key == NO_SECURITY_KEY then Conclude(s, t, v, false, false, true)
      else if v.key == 0 then Conclude(s, t, v, false, false, false)
      else Goto(s, t, Validating(465, v))
    case 465 => if c.succeeded then Goto(s, t, Validating(466, v)) else Conclude(s, t, v, false, false, false)
    case 466 =>
      if !c.keysGenerated then Conclude(s, t, v, true, false, false)
      else if v.level == 1 then Goto(s, t, Validating(472, v))
      else if v.level == 2 then Goto(s, t, Validating(478, v))
      else Conclude(s, t, v, true, true, false)
    case 472 => if v.key == c.l1 then Conclude(s, t, v, true, true, true) else Goto(s, t, Validating(473, v))
    case 473 => Conclude(s, t, v, true, true, v.key == c.l2)
    case 478 => Conclude(s, t, v, true, true, v.key == c.l2)
    case _ => s
  }

  function Conclude(s: State, t: Tid, v: Validation, sawSucceeded: bool, sawGenerated: bool, ok: bool): State
  {
    Goto(s.(h := s.h.(checks := s.h.checks + [Check(v, sawSucceeded, sawGenerated, ok)])), t, Idle)
  }

  // ----- the key level an open asks for (thread.c and process.c) -----

  const THREAD_READ_ACCESS: bv32 := 0x2_0000 | 0x10_0000 | 0x40 | 0x800 | 0x8
  const PROCESS_READ_ACCESS: bv32 := 0x2_0000 | 0x10_0000 | 0x400 | 0x1000 | 0x10

  const READ_CONTROL: bv32 := 0x2_0000
  const SYNCHRONIZE: bv32 := 0x10_0000
  const PROCESS_QUERY_INFORMATION: bv32 := 0x400
  const PROCESS_QUERY_LIMITED_INFORMATION: bv32 := 0x1000
  const PROCESS_VM_READ: bv32 := 0x10
  const THREAD_QUERY_INFORMATION: bv32 := 0x40
  const THREAD_QUERY_LIMITED_INFORMATION: bv32 := 0x800
  const THREAD_GET_CONTEXT: bv32 := 0x8
  const PROCESS_TERMINATE: bv32 := 0x1
  const PROCESS_VM_WRITE: bv32 := 0x20
  const THREAD_TERMINATE: bv32 := 0x1
  const THREAD_SET_CONTEXT: bv32 := 0x10

  function RequiredLevel(desired: bv32, readMask: bv32): int
  {
    if desired & readMask != desired then 2 else 1
  }
}
