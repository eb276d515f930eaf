/**
 KphQueryNameFileObject of KSystemHacker/object.c: the name of a file object is
 assembled backwards along its chain of related files, in place, behind the
 16-byte OBJECT_NAME_INFORMATION header of a 64-bit build.
 */
module ObjectName {
  import opened Common

  const HEADER: nat := 16

  class FileObject {
    const fileName: seq<Byte>
    const hasBuffer: bool // FileName.Buffer is not NULL
    const related: FileObject?

    constructor (fileName: seq<Byte>, hasBuffer: bool, related: FileObject?, selfLinked: bool)
      ensures this.fileName == fileName && this.hasBuffer == hasBuffer
      ensures this.related == if selfLinked then this else related
    {
      this.fileName, this.hasBuffer := fileName, hasBuffer;
      this.related := if selfLinked then this else related;
    }
  }

  /** The walk from `f` over related files; it ends at NULL or at a file related to itself. */
  ghost predicate IsChain(f: FileObject, chain: seq<FileObject>)
  {
    && |chain| > 0 && chain[0] == f
    && (forall i :: 0 <= i < |chain| - 1 ==> chain[i].related == chain[i + 1] && chain[i + 1] != chain[i])
    && (var last := chain[|chain| - 1]; last.related == null || last.related == last)
  }

  /** The names from the furthest ancestor down to the first file. */
  ghost function Names(chain: seq<FileObject>): seq<Byte>
  {
    if chain == [] then [] else chain[|chain| - 1].fileName + Names(chain[..|chain| - 1])
  }

  /** The name of a file comes last, behind those of its ancestors. */
  lemma {:induction false} NamesExact(f: FileObject, ancestors: seq<FileObject>)
    ensures Names([]) == [] && Names([f] + ancestors) == Names(ancestors) + f.fileName
  {
    if ancestors == [] {
      assert [f] + ancestors == [f] && [f][..0] == [];
    } else {
      var n := |ancestors| - 1;
      NamesExact(f, ancestors[..n]);
      NamesLast([f] + ancestors[..n], ancestors[n]);
      assert [f] + ancestors == ([f] + ancestors[..n]) + [ancestors[n]];
    }
  }

  lemma NamesLast(chain: seq<FileObject>, top: FileObject)
    ensures Names(chain + [top]) == top.fileName + Names(chain)
  {
    assert (chain + [top])[..|chain|] == chain;
  }

  lemma {:induction false} NamesPrefix(chain: seq<FileObject>, i: nat)
    requires i <= |chain|
    ensures |Names(chain[..i])| <= |Names(chain)|
  {
    if i == |chain| {
      assert chain[..i] == chain;
    } else {
      assert chain[..|chain| - 1][..i] == chain[..i];
      NamesPrefix(chain[..|chain| - 1], i);
    }
  }

  /** The walk stops at the last file and only there. */
  lemma ChainStep(f: FileObject, chain: seq<FileObject>, i: nat)
    requires IsChain(f, chain) && i < |chain|
    ensures (chain[i].related == null || chain[i].related == chain[i]) <==> i + 1 == |chain|
    ensures i + 1 == |chain| ==> chain[..i + 1] == chain
  {
    if i + 1 < |chain| { assert chain[i + 1] != chain[i]; }
  }

  // ----- the device name -----

  datatype Device = NoDevice | Device(name: seq<Byte>)

  function DeviceName(d: Device): seq<Byte> { if d.NoDevice? then [] else d.name }

  /** What ObQueryNameString needs: the header, and for a non-empty name also a terminator. */
  function DeviceNeeds(d: Device): nat
  {
    if d.NoDevice? || d.name == [] then HEADER else HEADER + |d.name| + 2
  }

  datatype Status = Success | BufferTooSmall

  /** The UNICODE_STRING at the start of the buffer; `at` is the offset Name.Buffer points to. */
  datatype NameHeader = NameHeader(length: nat, at: Option<nat>)

  /** ObQueryNameString on the device object; an unnamed object gets a NULL pointer. */
  method QueryDevice(d: Device, buffer: array<Byte>) returns (ok: bool, needed: nat, h: NameHeader)
    requires d.Device? && buffer.Length >= HEADER && |d.name| < TWO16
    modifies buffer
    ensures ok == (DeviceNeeds(d) <= buffer.Length) && needed == DeviceNeeds(d)
    ensures ok ==> buffer[HEADER..HEADER + |d.name|] == d.name
    ensures ok ==> h == NameHeader(|d.name|, if d.name == [] then None else Some(HEADER))
    ensures forall i :: DeviceNeeds(d) <= i < buffer.Length ==> buffer[i] == old(buffer[i])
  {
    needed := DeviceNeeds(d);
    ok := needed <= buffer.Length;
    h := NameHeader(|d.name|, if d.name == [] then None else Some(HEADER));
    if ok {
      forall i | 0 <= i < |d.name| { buffer[HEADER + i] := d.name[i]; }
      if d.name != [] { buffer[HEADER + |d.name|], buffer[HEADER + |d.name| + 1] := 0, 0; }
    }
  }

  // ----- the chain walks -----

  /** Lines 506-518. */
  method ChainLength(f: FileObject, ghost chain: seq<FileObject>) returns (n: nat)
    requires IsChain(f, chain)
    ensures n == |Names(chain)|
  {
    var file := f;
    ghost var i: nat := 0;
    n := 0;
    while true
      invariant i < |chain| && file == chain[i] && n == |Names(chain[..i])|
      decreases |chain| - i
    {
      assert chain[..i + 1][..i] == chain[..i];
      n := n + |file.fileName|;
      ChainStep(f, chain, i);
      if file.related == file || file.related == null { break; }
      file := file.related;
      i := i + 1;
    }
  }

  /** Lines 533-547: the names are written right to left, ending just before `end`. */
  method CopyNames(f: FileObject, ghost chain: seq<FileObject>, buffer: array<Byte>, end: nat)
    requires IsChain(f, chain) && |Names(chain)| <= end <= buffer.Length
    modifies buffer
    ensures buffer[end - |Names(chain)|..end] == Names(chain)
    ensures forall j :: 0 <= j < end - |Names(chain)| || end <= j < buffer.Length ==> buffer[j] == old(buffer[j])
  {
    var file := f;
    var at: nat := end;
    ghost var i: nat := 0;
    while true
      invariant i < |chain| && file == chain[i] && at == end - |Names(chain[..i])|
      invariant buffer[at..end] == Names(chain[..i])
      invariant forall j :: 0 <= j < at || end <= j < buffer.Length ==> buffer[j] == old(buffer[j])
      decreases |chain| - i
    {
      assert chain[..i + 1][..i] == chain[..i];
      NamesPrefix(chain, i + 1);
      ghost var done := buffer[at..end];
      at := at - |file.fileName|;
      forall j | 0 <= j < |file.fileName| { buffer[at + j] := file.fileName[j]; }
      Joined(buffer[..], at, at + |file.fileName|, end, file.fileName, done);
      ChainStep(f, chain, i);
      if file.related == file || file.related == null { break; }
      file := file.related;
      i := i + 1;
    }
  }

  lemma Joined(s: seq<Byte>, a: nat, b: nat, c: nat, left: seq<Byte>, right: seq<Byte>)
    requires a <= b <= c <= |s| && s[a..b] == left && s[b..c] == right
    ensures s[a..c] == left + right
  {
  }

  // ----- the query -----

  /** Lines 506-547: measure the chain and, if it fits, place its names after the first `used` bytes. */
  method AppendNames(f: FileObject, buffer: array<Byte>, used: nat, ghost chain: seq<FileObject>)
    returns (ok: bool, total: nat)
    requires IsChain(f, chain) && HEADER <= used <= buffer.Length
    modifies buffer
    ensures total == used + |Names(chain)| && ok == (total <= buffer.Length)
    ensures ok ==> buffer[HEADER..total] == old(buffer[HEADER..used]) + Names(chain)
    ensures forall i :: 0 <= i < buffer.Length && (i >= total || !ok) ==> buffer[i] == old(buffer[i])
  {
    total := ChainLength(f, chain);
    total := used + total;
    ok := total <= buffer.Length;
    if ok {
      CopyNames(f, chain, buffer, total);
      assert buffer[HEADER..total] == buffer[HEADER..used] + buffer[used..total];
    }
  }

  /** The whole name: device, then the related files from the top down. */
  ghost function FullName(d: Device, chain: seq<FileObject>): seq<Byte>
    requires chain != []
  {
    DeviceName(d) + if chain[0].hasBuffer then Names(chain) else []
  }

  ghost predicate Succeeds(d: Device, chain: seq<FileObject>, length: nat)
    requires chain != []
  {
    length >= HEADER && DeviceNeeds(d) <= length && (chain[0].hasBuffer ==> HEADER + |FullName(d, chain)| <= length)
  }

  /** The length reported by a call on a buffer of the given length. */
  ghost function Reported(d: Device, chain: seq<FileObject>, length: nat): nat
    requires chain != []
  {
    if length < HEADER then HEADER
    else if DeviceNeeds(d) > length then DeviceNeeds(d)
    else HEADER + |FullName(d, chain)|
  }

  /** Lines 455-491: after the header, the name of the device if there is one. */
  method DevicePart(d: Device, buffer: array<Byte>) returns (ok: bool, used: nat, h: NameHeader)
    requires buffer.Length >= HEADER && |DeviceName(d)| < TWO16
    modifies buffer
    ensures ok == (DeviceNeeds(d) <= buffer.Length)
    ensures !ok ==> used == DeviceNeeds(d)
    ensures ok ==>
              && used == HEADER + |DeviceName(d)| && buffer[HEADER..used] == DeviceName(d)
              && h == NameHeader(|DeviceName(d)|, if d == Device([]) then None else Some(HEADER))
    ensures forall i :: DeviceNeeds(d) <= i < buffer.Length ==> buffer[i] == old(buffer[i])
  {
    ok, used, h := true, HEADER, NameHeader(0, Some(HEADER));
    if d.Device? {
      ok, used, h := QueryDevice(d, buffer);
      if ok { used := HEADER + h.length; }
    }
  }

  method QueryName(f: FileObject, d: Device, buffer: array<Byte>, ghost chain: seq<FileObject>)
    returns (status: Status, returnLength: nat, h: NameHeader)
    requires IsChain(f, chain) && |DeviceName(d)| < TWO16
    requires HEADER + |FullName(d, chain)| < TWO32 // no wrap of the ULONG lengths
    modifies buffer
    ensures status == Success <==> Succeeds(d, chain, buffer.Length)
    ensures returnLength == Reported(d, chain, buffer.Length)
    ensures status == Success ==>
              && returnLength <= buffer.Length && buffer[HEADER..returnLength] == FullName(d, chain)
              && h.length == |FullName(d, chain)| % TWO16
              && h.at == (if d == Device([]) then None else Some(HEADER))
    ensures forall i :: returnLength <= i < buffer.Length && DeviceNeeds(d) <= i ==> buffer[i] == old(buffer[i])
  {
    h := NameHeader(0, Some(HEADER));
    if buffer.Length < HEADER { return BufferTooSmall, HEADER, h; }
    var found, used;
    found, used, h := DevicePart(d, buffer);
    if !found { return BufferTooSmall, used, h; }
    if !f.hasBuffer { return Success, used, h; }
    status, returnLength, h := NamePart(f, d, buffer, used, h, chain);
  }

  /** Lines 500-556: the names of the chain behind that of the device. */
  method NamePart(f: FileObject, d: Device, buffer: array<Byte>, used: nat, h0: NameHeader, ghost chain: seq<FileObject>)
    returns (status: Status, returnLength: nat, h: NameHeader)
    requires IsChain(f, chain) && f.hasBuffer && HEADER <= used <= buffer.Length
    requires used == HEADER + |DeviceName(d)| && buffer[HEADER..used] == DeviceName(d) && h0.length == |DeviceName(d)|
    modifies buffer
    ensures returnLength == HEADER + |FullName(d, chain)|
    ensures status == Success <==> returnLength <= buffer.Length
    ensures status == Success ==>
              && buffer[HEADER..returnLength] == FullName(d, chain)
              && h == h0.(length := |FullName(d, chain)| % TWO16)
    ensures forall i :: returnLength <= i < buffer.Length ==> buffer[i] == old(buffer[i])
  {
    assert FullName(d, chain) == buffer[HEADER..used] + Names(chain);
    var ok, total := AppendNames(f, buffer, used, chain);
    if !ok { return BufferTooSmall, total, h0; }
    AddLowWord(h0.length, total - used);
    h := h0.(length := (h0.length + (total - used) % TWO16) % TWO16);
    return Success, total, h;
  }

  lemma AddLowWord(x: nat, y: nat)
    ensures (x + y % TWO16) % TWO16 == (x + y) % TWO16
  {
  }

  /** A refusal by the chain-length check reports a length with which the next call succeeds. */
  lemma RetrySucceeds(d: Device, chain: seq<FileObject>, length: nat)
    requires chain != [] && HEADER <= length && DeviceNeeds(d) <= length && !Succeeds(d, chain, length)
    ensures length < Reported(d, chain, length) && Succeeds(d, chain, Reported(d, chain, length))
  {
  }

  /** The length reported by a refusal is never more than what succeeds. */
  lemma ReportedLeast(d: Device, chain: seq<FileObject>, length: nat, enough: nat)
    requires chain != [] && !Succeeds(d, chain, length) && Succeeds(d, chain, enough)
    ensures length < Reported(d, chain, length) <= enough
  {
  }

  /** What a buffer needs: the 16-byte header, and behind it the device name with its terminator, or the full name. */
  lemma SucceedsExact(d: Device, chain: seq<FileObject>, length: nat)
    requires chain != []
    ensures Succeeds(d, chain, length) <==>
            && length >= 16 && (d.Device? && d.name != [] ==> length >= 16 + |d.name| + 2)
            && (chain[0].hasBuffer ==> length >= 16 + |FullName(d, chain)|)
    ensures FullName(d, chain) == (if d.Device? then d.name else []) + if chain[0].hasBuffer then Names(chain) else []
  {
  }

  ghost function Retry(d: Device, chain: seq<FileObject>, length: nat, calls: nat): nat
    requires chain != []
    decreases calls
  {
    if calls == 0 || Succeeds(d, chain, length) then length
    else Retry(d, chain, Reported(d, chain, length), calls - 1)
  }

  /** From any length, calling again with the reported length succeeds after at most three refusals. */
  lemma RetriesConverge(d: Device, chain: seq<FileObject>, length: nat)
    requires chain != []
    ensures Succeeds(d, chain, Retry(d, chain, length, 3))
  {
    var l1 := Reported(d, chain, length);
    var l2 := Reported(d, chain, l1);
    assert Retry(d, chain, length, 3) == if Succeeds(d, chain, length) then length else Retry(d, chain, l1, 2);
    assert Retry(d, chain, l1, 2) == if Succeeds(d, chain, l1) then l1 else Retry(d, chain, l2, 1);
    var l3 := Reported(d, chain, l2);
    assert Retry(d, chain, l2, 1) == if Succeeds(d, chain, l2) then l2 else Retry(d, chain, l3, 0);
    assert !Succeeds(d, chain, length) && !Succeeds(d, chain, l1) && !Succeeds(d, chain, l2) ==> Succeeds(d, chain, l3);
  }
}
