/** The two readers of TaskHelper/LinuxMain.cpp that grow blindly up to a bound. */
module ProcReaders {
  import opened Common

  const MAX_FILE: nat := 8 * 1024 * 1024
  const CHUNK: nat := 8192

  /** What one read answers; a short read may deliver any positive number of bytes. */
  datatype ReadAnswer = Eintr | Failed | Bytes(n: nat)

  function Reads(answers: seq<ReadAnswer>): nat
  {
    if answers == [] then 0 else (if answers[0].Bytes? then 1 else 0) + Reads(answers[1..])
  }

  /**
   ReadWholeFile, lines 475-510, on an opened file and an empty vector. `answers`
   is how the reads go; running out of answers counts as a failing read.
   */
  method ReadWholeFile(file: seq<Byte>, answers: seq<ReadAnswer>) returns (ok: bool, data: seq<Byte>)
    ensures data <= file && |data| <= MAX_FILE
    ensures ok && |file| <= MAX_FILE ==> data == file
    ensures ok && |file| > MAX_FILE ==> |data| > MAX_FILE - CHUNK
    ensures Failed !in answers && Reads(answers) > |file| ==> ok
  {
    data := [];
    assert answers[0..] == answers;
    var offset: nat := 0;
    var i: nat := 0;
    while i < |answers|
      invariant offset == |data| <= |file| && data == file[..offset] && offset <= MAX_FILE && i <= |answers|
      invariant Reads(answers[i..]) + offset >= Reads(answers)
      decreases |answers| - i
    {
      var a := answers[i];
      assert answers[i..][1..] == answers[i + 1..];
      i := i + 1;
      match a
      case Eintr => continue;
      case Failed => return false, data;
      case Bytes(n) =>
        var read := Min(Min(if n == 0 then 1 else n, CHUNK), |file| - offset);
        if read == 0 { return true, data; }
        if |data| + read > MAX_FILE { return true, data; }
        data := data + file[offset..offset + read];
        offset := offset + read;
    }
    return false, data;
  }

  const MAX_LINK: nat := 128 * 1024

  /**
   ReadProcLink, lines 584-599: a fixed target of any length is returned up to
   128 KiB, after at most eight calls of readlink.
   */
  method ReadLink(target: seq<Byte>, fails: nat -> bool) returns (r: Option<seq<Byte>>, calls: nat)
    ensures 1 <= calls <= 8
    ensures r == None <==> fails(calls - 1)
    ensures r.Some? ==> r.value == target[..Min(|target|, MAX_LINK)]
  {
    var size: nat := 1024;
    calls := 0;
    while true
      invariant calls < 8 && size == [1024, 2048, 4096, 8192, 16384, 32768, 65536, MAX_LINK][calls]
      decreases 8 - calls
    {
      calls := calls + 1;
      if fails(calls - 1) { return None, calls; }
      var length := Min(|target|, size);
      if length < size || size > 64 * 1024 { return Some(target[..length]), calls; }
      size := size * 2;
    }
  }
}
