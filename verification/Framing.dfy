/**
 The length-prefixed framing of TaskHelper/LinuxMain.cpp over a stream socket
 that may split every transfer. Payloads are opaque byte sequences.

 What poll, recv and send answer is a script held by the socket, so a claim
 about every script is a claim about every way of splitting the transfers and
 every placement of EINTR. An exhausted script reads as a poll that timed out.
 */
module Framing {
  import opened Common

  const MAX_PAYLOAD: nat := 100 * 1024 * 1024

  // ----- the wire format -----

  /** Little-endian: the first byte counts least. */
  function Le32(n: nat): (s: seq<Byte>)
    requires n < TWO32
    ensures |s| == 4
  {
    [n % 0x100, n / 0x100 % 0x100, n / 0x1_0000 % 0x100, n / 0x100_0000]
  }

  function FromLe32(s: seq<Byte>): (n: nat)
    requires |s| == 4
    ensures n < TWO32
  {
    (s[0] as int) + 0x100 * (s[1] as int) + 0x1_0000 * (s[2] as int) + 0x100_0000 * (s[3] as int)
  }

  /** Four bytes of base 256, the least significant first, on both sides. */
  lemma Le32RoundTrip(n: nat)
    requires n < TWO32
    ensures var s := Le32(n); n == (s[0] as int) + 256 * (s[1] as int) + 65536 * (s[2] as int) + 16777216 * (s[3] as int)
    ensures FromLe32(Le32(n)) == n
  {
    var q1, q2, q3 := n / 0x100, n / 0x1_0000, n / 0x100_0000;
    assert n == 0x100 * q1 + n % 0x100;
    assert q1 == 0x100 * q2 + q1 % 0x100;
    assert q2 == 0x100 * q3 + q2 % 0x100;
  }

  /** The cast of the payload size to 32 bits on line 174. */
  function SentLength(p: seq<Byte>): nat { |p| % TWO32 }

  function Frame(p: seq<Byte>): seq<Byte> { Le32(SentLength(p)) + p[..SentLength(p)] }

  function Stream(ps: seq<seq<Byte>>): seq<Byte>
  {
    if ps == [] then [] else Frame(ps[0]) + Stream(ps[1..])
  }

  /** A payload and the bytes after it, or `None` where RecvVariant cannot succeed. */
  function DecodeFrame(s: seq<Byte>): Option<(seq<Byte>, seq<Byte>)>
  {
    if |s| < 4 then None
    else
      var n := FromLe32(s[..4]);
      if n == 0 || n > MAX_PAYLOAD || |s| < 4 + n then None else Some((s[4..4 + n], s[4 + n..]))
  }

  predicate Sendable(p: seq<Byte>) { 1 <= |p| <= 104_857_600 }

  /** A frame decodes to its payload exactly when that is 1 byte to 100 MiB long. */
  lemma FrameExact(p: seq<Byte>, rest: seq<Byte>)
    ensures DecodeFrame(Frame(p) + rest) == Some((p, rest)) <==> Sendable(p)
  {
    var n := SentLength(p);
    var s := Frame(p) + rest;
    Le32RoundTrip(n);
    assert s[..4] == Le32(n);
    if 1 <= n <= MAX_PAYLOAD {
      assert s[4..4 + n] == p[..n] && s[4 + n..] == rest;
      assert DecodeFrame(s) == Some((p[..n], rest));
      assert |p| == n ==> p[..n] == p;
      assert |p| != n ==> |p[..n]| != |p|;
    }
  }

  // ----- the socket -----

  datatype RecvAnswer = NotReady | Closed | RecvEintr | RecvFailed | Got(n: nat)
  datatype SendAnswer = SendEintr | SendFailed | Sent(n: nat)

  class Socket {
    var inbound: seq<Byte>
    var outbound: seq<Byte>
    var recvAnswers: seq<RecvAnswer>
    var sendAnswers: seq<SendAnswer>

    /** poll followed by recv: a positive answer delivers between 1 and `want` bytes. */
    method PollAndRecv(want: nat) returns (a: RecvAnswer, data: seq<Byte>)
      requires want > 0
      modifies this`inbound, this`recvAnswers
      ensures old(inbound) == data + inbound
      ensures if a.Got? then 0 < |data| <= want else data == []
      ensures old(recvAnswers) == [] ==> a == NotReady && recvAnswers == []
      ensures old(recvAnswers) != [] ==>
                && recvAnswers == old(recvAnswers)[1..]
                && a == if old(recvAnswers)[0].Got? && old(inbound) == [] then NotReady else old(recvAnswers)[0]
    {
      if recvAnswers == [] { return NotReady, []; }
      a, data := recvAnswers[0], [];
      recvAnswers := recvAnswers[1..];
      if a.Got? {
        var n := if a.n > want then want else if a.n == 0 then 1 else a.n;
        if n > |inbound| { n := |inbound|; }
        if n == 0 { return NotReady, []; }
        data := inbound[..n];
        inbound := inbound[n..];
      }
    }

    /** send: accepts between 1 byte and everything it is given. */
    method Send(data: seq<Byte>) returns (a: SendAnswer, n: nat)
      requires data != []
      modifies this`outbound, this`sendAnswers
      ensures n <= |data| && outbound == old(outbound) + data[..n]
      ensures a.Sent? <==> n > 0
      ensures if old(sendAnswers) == [] then a == SendFailed
              else a == old(sendAnswers)[0] && sendAnswers == old(sendAnswers)[1..]
    {
      if sendAnswers == [] { return SendFailed, 0; }
      a, n := sendAnswers[0], 0;
      sendAnswers := sendAnswers[1..];
      if a.Sent? {
        n := if a.n > |data| then |data| else if a.n == 0 then 1 else a.n;
        outbound := outbound + data[..n];
      }
    }
  }

  /** A script without failures, and how many transfers it grants. */
  predicate Smooth(a: seq<RecvAnswer>) { forall i :: 0 <= i < |a| ==> a[i].Got? || a[i].RecvEintr? }

  function Transfers(a: seq<RecvAnswer>): nat
  {
    if a == [] then 0 else (if a[0].Got? then 1 else 0) + Transfers(a[1..])
  }

  /** Lines 93-119. Success is certain on a smooth script with a transfer for every byte. */
  method ReadExact(s: Socket, length: nat) returns (ok: bool, data: seq<Byte>)
    modifies s`inbound, s`recvAnswers
    ensures old(s.inbound) == data + s.inbound
    ensures if ok then |data| == length else |data| < length
    ensures ok && Smooth(old(s.recvAnswers)) ==>
              Smooth(s.recvAnswers) && Transfers(s.recvAnswers) + length >= Transfers(old(s.recvAnswers))
    ensures Smooth(old(s.recvAnswers)) && Transfers(old(s.recvAnswers)) >= length && |old(s.inbound)| >= length ==> ok
  {
    data := [];
    while |data| < length
      invariant |data| <= length && old(s.inbound) == data + s.inbound
      invariant Smooth(old(s.recvAnswers)) ==>
                  Smooth(s.recvAnswers) && Transfers(s.recvAnswers) + |data| >= Transfers(old(s.recvAnswers))
      decreases |s.recvAnswers|
    {
      var a, chunk := s.PollAndRecv(length - |data|);
      match a
      case NotReady => return false, data;
      case Closed => return false, data;
      case RecvFailed => return false, data;
      case RecvEintr => continue;
      case Got(_) => data := data + chunk;
    }
    ok := true;
  }

  predicate SmoothSend(a: seq<SendAnswer>) { forall i :: 0 <= i < |a| ==> a[i].Sent? || a[i].SendEintr? }

  function SendTransfers(a: seq<SendAnswer>): nat
  {
    if a == [] then 0 else (if a[0].Sent? then 1 else 0) + SendTransfers(a[1..])
  }

  /** The rest of a smooth script still lets everything through after `done` bytes. */
  predicate Lasts(before: seq<SendAnswer>, after: seq<SendAnswer>, done: nat)
  {
    SmoothSend(before) ==> SmoothSend(after) && SendTransfers(after) + done >= SendTransfers(before)
  }

  /** Lines 121-142: on failure a proper prefix has been sent; a smooth script with a transfer for every byte suffices. */
  method WriteExact(s: Socket, data: seq<Byte>) returns (ok: bool, ghost done: nat)
    modifies s`outbound, s`sendAnswers
    ensures done <= |data| && s.outbound == old(s.outbound) + data[..done]
    ensures ok <==> done == |data|
    ensures ok ==> Lasts(old(s.sendAnswers), s.sendAnswers, done)
    ensures SmoothSend(old(s.sendAnswers)) && SendTransfers(old(s.sendAnswers)) >= |data| ==> ok
  {
    var sent: nat := 0;
    done := 0;
    while sent < |data|
      invariant sent == done <= |data| && s.outbound == old(s.outbound) + data[..sent]
      invariant Lasts(old(s.sendAnswers), s.sendAnswers, sent)
      decreases |s.sendAnswers|, |data| - sent
    {
      var a, n := s.Send(data[sent..]);
      if !a.Sent? {
        if a.SendEintr? { continue; }
        return false, sent;
      }
      assert data[..sent] + data[sent..][..n] == data[..sent + n];
      sent, done := sent + n, sent + n;
    }
    ok := true;
  }

  /** Lines 169-179. */
  method SendVariant(s: Socket, payload: seq<Byte>) returns (ok: bool, ghost done: nat)
    modifies s`outbound, s`sendAnswers
    ensures done <= |Frame(payload)| && s.outbound == old(s.outbound) + Frame(payload)[..done]
    ensures ok <==> done == |Frame(payload)|
    ensures ok ==> Lasts(old(s.sendAnswers), s.sendAnswers, done)
    ensures SmoothSend(old(s.sendAnswers)) && SendTransfers(old(s.sendAnswers)) >= |Frame(payload)| ==> ok
  {
    var length := |payload| % TWO32;
    ghost var head := Le32(length);
    ok, done := WriteExact(s, Le32(length));
    assert Frame(payload)[..4] == head && head[..done] == Frame(payload)[..done];
    if !ok { return; }
    ghost var more;
    ok, more := WriteExact(s, payload[..length]);
    assert head[..4] == head && head + payload[..length][..more] == Frame(payload)[..4 + more];
    done := 4 + more;
  }

  /** A complete frame is waiting and the script lets all of it through. */
  predicate Served(inbound: seq<Byte>, answers: seq<RecvAnswer>)
  {
    && Smooth(answers) && DecodeFrame(inbound).Some?
    && Transfers(answers) >= 4 + |DecodeFrame(inbound).value.0|
  }

  /** Lines 148-167; `variant` is the caller's variable, which a failure leaves alone. */
  method RecvVariant(s: Socket, variant0: seq<Byte>) returns (ok: bool, variant: seq<Byte>)
    modifies s`inbound, s`recvAnswers
    ensures ok ==> DecodeFrame(old(s.inbound)) == Some((variant, s.inbound))
    ensures ok ==> |old(s.inbound)| - |s.inbound| == 4 + |variant|
    ensures !ok ==> variant == variant0
    ensures Served(old(s.inbound), old(s.recvAnswers)) ==> ok
    ensures ok && Smooth(old(s.recvAnswers)) ==>
              Smooth(s.recvAnswers) && Transfers(s.recvAnswers) + 4 + |variant| >= Transfers(old(s.recvAnswers))
  {
    variant := variant0;
    var head;
    ghost var all := s.inbound;
    ok, head := ReadExact(s, 4);
    if !ok { return; }
    assert all[..4] == head && all[4..] == s.inbound;
    var length := FromLe32(head);
    if length == 0 || length > MAX_PAYLOAD { return false, variant0; }
    var data;
    ok, data := ReadExact(s, length);
    if !ok { return; }
    assert all[4..][..length] == data && all[4..][length..] == s.inbound;
    assert all[4..4 + length] == all[4..][..length] && all[4 + length..] == all[4..][length..];
    variant := data;
  }

  // ----- whole conversations -----

  /** Sends the payloads one after the other until one fails. */
  method SendAll(s: Socket, ps: seq<seq<Byte>>) returns (ok: bool, ghost done: nat)
    modifies s`outbound, s`sendAnswers
    ensures done <= |Stream(ps)| && s.outbound == old(s.outbound) + Stream(ps)[..done]
    ensures ok <==> done == |Stream(ps)|
    ensures SmoothSend(old(s.sendAnswers)) && SendTransfers(old(s.sendAnswers)) >= |Stream(ps)| ==> ok
  {
    ok, done := true, 0;
    var i := 0;
    assert ps[0..] == ps;
    while i < |ps|
      invariant i <= |ps| && done <= |Stream(ps)| && Stream(ps)[done..] == Stream(ps[i..])
      invariant s.outbound == old(s.outbound) + Stream(ps)[..done]
      invariant Lasts(old(s.sendAnswers), s.sendAnswers, done)
    {
      assert ps[i..][1..] == ps[i + 1..];
      ghost var more;
      ok, more := SendVariant(s, ps[i]);
      Advance(old(s.outbound), Stream(ps), done, Frame(ps[i]), Stream(ps[i + 1..]), more);
      done := done + more;
      if !ok { return; }
      i := i + 1;
    }
  }

  /** Sending `more` bytes of the next frame sends as many more bytes of the stream. */
  lemma Advance(before: seq<Byte>, all: seq<Byte>, done: nat, frame: seq<Byte>, rest: seq<Byte>, more: nat)
    requires done <= |all| && all[done..] == frame + rest && more <= |frame|
    ensures done + more <= |all| && (before + all[..done]) + frame[..more] == before + all[..done + more]
    ensures more == |frame| ==> all[done + more..] == rest
  {
    assert all == all[..done] + (frame + rest);
  }

  /** How many payloads have their whole frame in the first `n` bytes of the stream. */
  function Complete(ps: seq<seq<Byte>>, n: nat): (k: nat)
    ensures k <= |ps|
  {
    if ps == [] || n < |Frame(ps[0])| then 0 else 1 + Complete(ps[1..], n - |Frame(ps[0])|)
  }

  lemma {:induction false} AllComplete(ps: seq<seq<Byte>>)
    ensures Complete(ps, |Stream(ps)|) == |ps|
  {
    if ps != [] { AllComplete(ps[1..]); }
  }

  /** A frame that is cut short does not decode. */
  lemma PartialFrame(p: seq<Byte>, n: nat)
    requires Sendable(p) && n < |Frame(p)|
    ensures DecodeFrame(Frame(p)[..n]) == None
  {
    var head := Le32(|p|);
    Le32RoundTrip(|p|);
    assert Frame(p) == head + p;
    if n >= 4 { assert Frame(p)[..n][..4] == head; }
  }

  lemma CutInTwo(frame: seq<Byte>, rest: seq<Byte>, inbound: seq<Byte>)
    requires inbound <= frame + rest
    ensures if |inbound| < |frame| then inbound == frame[..|inbound|]
            else inbound == frame + inbound[|frame|..] && inbound[|frame|..] <= rest
  {
  }

  /** What is waiting when the stream of `ps` was cut: the first payload, or nothing that decodes. */
  lemma NextInCut(ps: seq<seq<Byte>>, inbound: seq<Byte>)
    requires inbound <= Stream(ps) && forall i :: 0 <= i < |ps| ==> Sendable(ps[i])
    ensures Complete(ps, |inbound|) == 0 ==> DecodeFrame(inbound) == None
    ensures Complete(ps, |inbound|) > 0 ==>
              var f := |Frame(ps[0])|;
              && f <= |inbound| && DecodeFrame(inbound) == Some((ps[0], inbound[f..])) && inbound[f..] <= Stream(ps[1..])
  {
    if ps != [] { FrontOfCut(ps[0], Stream(ps[1..]), inbound); }
  }

  lemma FrontOfCut(p: seq<Byte>, rest: seq<Byte>, inbound: seq<Byte>)
    requires Sendable(p) && inbound <= Frame(p) + rest
    ensures var f := |Frame(p)|;
            if |inbound| < f then DecodeFrame(inbound) == None
            else DecodeFrame(inbound) == Some((p, inbound[f..])) && inbound[f..] <= rest
  {
    CutInTwo(Frame(p), rest, inbound);
    if |inbound| < |Frame(p)| { PartialFrame(p, |inbound|); } else { FrameExact(p, inbound[|Frame(p)|..]); }
  }

  /** After `got`, the rest of the cut stream is waiting, and as many payloads are still to come. */
  ghost predicate Cut(ps: seq<seq<Byte>>, total: nat, got: seq<seq<Byte>>, inbound: seq<Byte>)
  {
    && got <= ps && inbound <= Stream(ps[|got|..])
    && |got| + Complete(ps[|got|..], |inbound|) == total
  }

  lemma OneMore(ps: seq<seq<Byte>>, total: nat, got: seq<seq<Byte>>, inbound: seq<Byte>)
    requires Cut(ps, total, got, inbound) && |got| < |ps| && forall i :: 0 <= i < |ps| ==> Sendable(ps[i])
    ensures |got| == total ==> DecodeFrame(inbound) == None
    ensures |got| < total ==>
              && DecodeFrame(inbound).Some?
              && var (p, rest) := DecodeFrame(inbound).value; Cut(ps, total, got + [p], rest)
  {
    var rest := ps[|got|..];
    assert rest[1..] == ps[|got| + 1..];
    NextInCut(rest, inbound);
    if |got| < total { assert got + [rest[0]] == ps[..|got| + 1]; }
  }

  /**
   Receiving from a stream that was cut short, as a failed SendAll leaves it, gives
   exactly the payloads whose whole frame arrived, in order, for every way the
   socket splits the stream, provided every byte can be transferred.
   */
  method ReceiveAll(s: Socket, ghost ps: seq<seq<Byte>>, count: nat) returns (got: seq<seq<Byte>>)
    requires count == |ps| && (forall i :: 0 <= i < |ps| ==> Sendable(ps[i]))
    requires s.inbound <= Stream(ps)
    modifies s`inbound, s`recvAnswers
    ensures got <= ps && |got| <= Complete(ps, |old(s.inbound)|)
    ensures Smooth(old(s.recvAnswers)) && Transfers(old(s.recvAnswers)) >= |old(s.inbound)| ==>
              && |got| == Complete(ps, |old(s.inbound)|)
              && (old(s.inbound) == Stream(ps) ==> got == ps)
    ensures |got| == |ps| ==> s.inbound == []
  {
    got := [];
    ghost var total := Complete(ps, |s.inbound|);
    AllComplete(ps);
    assert ps[0..] == ps;
    while |got| < count
      invariant Cut(ps, total, got, s.inbound)
      invariant Smooth(old(s.recvAnswers)) && Transfers(old(s.recvAnswers)) >= |old(s.inbound)| ==>
                  Smooth(s.recvAnswers) && Transfers(s.recvAnswers) >= |s.inbound|
    {
      OneMore(ps, total, got, s.inbound);
      var ok, p := RecvVariant(s, []);
      if !ok { return; }
      got := got + [p];
    }
  }
}
