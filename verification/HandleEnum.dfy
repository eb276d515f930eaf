/**
 KpiEnumerateProcessHandles of KSystemHacker/object.c and its callback: the
 callback keeps counting after the buffer is full so that the caller learns how
 much space a retry needs. Layout of a 64-bit build.
 */
module HandleEnum {
  import opened Common

  const HEADER: nat := 8  // offset of Handles behind HandleCount
  const RECORD: nat := 32 // sizeof(KPH_PROCESS_HANDLE)

  /** KPH_PROCESS_HANDLE. */
  datatype HandleInfo = HandleInfo(handle: nat, object: nat, grantedAccess: nat, typeIndex: nat, attributes: nat)

  datatype Status = Success | BufferTooSmall

  /** How many records fit behind the header. */
  function Room(length: nat): nat { if length < HEADER then 0 else (length - HEADER) / RECORD }

  /** The enumeration context of one call, with the caller's buffer as a list of record slots. */
  class Context {
    const base: nat   // address of the buffer
    const limit: nat  // base plus its length
    var current: nat  // address of the next entry
    var count: nat
    var status: Status
    var records: seq<HandleInfo> // the records written so far, one after the other behind the header

    constructor (base: nat, length: nat)
      requires base + length < TWO64
      ensures this.base == base && limit == base + length && current == base + HEADER
      ensures count == 0 && status == Success && records == []
    {
      this.base, limit, current := base, base + length, base + HEADER;
      count, status, records := 0, Success, [];
    }

    function Length(): nat
      requires base <= limit
    {
      limit - base
    }

    /** After the handles `seen`: counted all of them, kept the longest prefix that fits. */
    ghost predicate Reflects(seen: seq<HandleInfo>)
      reads this
    {
      && base <= limit < TWO64
      && count == |seen| && current == base + HEADER + RECORD * |seen|
      && records == seen[..Min(|seen|, Room(Length()))]
      && (status == BufferTooSmall <==> |seen| > Room(Length()))
    }

    /** KphpEnumerateProcessHandlesEnumCallback61, lines 173-204; the answer FALSE lets the enumeration go on. */
    method Callback(info: HandleInfo, ghost seen: seq<HandleInfo>) returns (stop: bool)
      requires Reflects(seen) && current + RECORD < TWO64
      modifies this`current, this`count, this`status, this`records
      ensures Reflects(seen + [info]) && !stop
    {
      var entry := current;
      current := (current + RECORD) % TWO64;
      count := count + 1;
      FitsIff(base, limit, |seen|);
      if entry >= base && (entry + RECORD) % TWO64 <= limit {
        records := records + [info];
        assert (seen + [info])[..|seen| + 1] == seen + [info] && seen[..|seen|] == seen;
      } else {
        if status == Success { status := BufferTooSmall; }
        assert (seen + [info])[..Room(Length())] == seen[..Room(Length())];
      }
      stop := false;
    }
  }

  /** Entry number `n` lies inside the buffer exactly when `n` records do not fill it. */
  lemma FitsIff(base: nat, limit: nat, n: nat)
    requires base <= limit
    ensures base + HEADER + RECORD * n + RECORD <= limit <==> n < Room(limit - base)
  {
  }

  datatype Answer = Answer(status: Status, handleCount: Option<nat>, returnLength: nat, records: seq<HandleInfo>)

  function Needed(table: seq<HandleInfo>): nat { HEADER + RECORD * |table| }

  /**
   Lines 292-368 for a process whose handle table is `table`. No address wraps and
   writing to the buffer does not fault; `returnLength` is a ULONG.
   */
  method EnumerateHandles(base: nat, length: nat, table: seq<HandleInfo>) returns (a: Answer)
    requires base + length < TWO64 && base + Needed(table) < TWO64 && |table| < TWO32
    ensures a.records == table[..Min(|table|, Room(length))]
    ensures a.status == BufferTooSmall <==> Needed(table) > length && table != []
    ensures a.handleCount == if length >= HEADER then Some(|table|) else None
    ensures a.returnLength == (8 + 32 * |table|) % TWO32
    ensures a.status == BufferTooSmall <==> table != [] && length < 8 + 32 * |table|
    ensures length >= 8 ==> a.records == table[..if |table| < (length - 8) / 32 then |table| else (length - 8) / 32]
  {
    var context := new Context(base, length);
    assert table[..0] == [];
    for i := 0 to |table|
      invariant context.base == base && context.limit == base + length && context.Reflects(table[..i])
    {
      assert table[..i] + [table[i]] == table[..i + 1];
      var stop := context.Callback(table[i], table[..i]);
    }
    assert table[..|table|] == table;
    var handleCount := if length >= HEADER then Some(context.count) else None;
    a := Answer(context.status, handleCount, (context.current - base) % TWO32, context.records);
  }

  /** A call with the reported length on the same table writes every record, unless the length wrapped. */
  method RetryWritesAll(base: nat, length: nat, table: seq<HandleInfo>) returns (a: Answer)
    requires base + length < TWO64 && base + Needed(table) < TWO64 && Needed(table) < TWO32
    ensures a == Answer(Success, Some(|table|), Needed(table), table)
  {
    var first := EnumerateHandles(base, length, table);
    a := EnumerateHandles(base, first.returnLength, table);
    assert table[..|table|] == table;
  }
}
