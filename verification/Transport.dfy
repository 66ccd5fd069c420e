/** A connected stream socket. What recv and send do is chosen by a plan that the proofs leave arbitrary. */
module Transport {
  import opened Basics

  /** The outcome of one system call: up to limit + 1 bytes move, or EINTR, or any other failure. */
  datatype Event = Chunk(limit: nat) | Interrupted | Fault

  /** A plan without failures. Short transfers and interruptions are allowed. */
  predicate Smooth(plan: seq<Event>) { Fault !in plan }

  class Socket {
    var incoming: seq<byte>    // what the peer still delivers before closing its side
    var sent: seq<byte>        // what the kernel accepted for the peer
    var recvPlan: seq<Event>
    var sendPlan: seq<Event>

    constructor (incoming: seq<byte>, recvPlan: seq<Event>, sendPlan: seq<Event>)
      ensures this.incoming == incoming && sent == [] && this.recvPlan == recvPlan && this.sendPlan == sendPlan
    {
      this.incoming, this.sent, this.recvPlan, this.sendPlan := incoming, [], recvPlan, sendPlan;
    }

    /** recv: the number of bytes read, 0 at the end of the stream, -1 on failure. */
    method Recv(buf: array<byte>, off: nat, n: nat) returns (r: int, eintr: bool)
      requires 0 < n && off + n <= buf.Length
      modifies this`incoming, this`recvPlan, buf
      ensures -1 <= r <= n && (eintr ==> r == -1)
      ensures r >= 0 ==> r <= |old(incoming)| && incoming == old(incoming)[r..]
      ensures r >= 0 ==> buf[..] == old(buf[..off]) + old(incoming)[..r] + old(buf[off + r..])
      ensures r < 0 ==> incoming == old(incoming) && buf[..] == old(buf[..])
      ensures r == 0 ==> incoming == []
      ensures recvPlan == if old(recvPlan) == [] then [] else old(recvPlan)[1..]
      ensures eintr ==> old(recvPlan) != []
      ensures r == -1 && !eintr ==> old(recvPlan) != [] && old(recvPlan)[0] == Fault
    {
      var limit := n;
      eintr := false;
      if recvPlan != [] {
        var e := recvPlan[0];
        recvPlan := recvPlan[1..];
        if e.Interrupted? { return -1, true; }
        if e.Fault? { return -1, false; }
        limit := Min(e.limit + 1, n);
      }
      r := Min(limit, |incoming|);
      forall j | 0 <= j < r {
        buf[off + j] := incoming[j];
      }
      incoming := incoming[r..];
    }

    /** send: the number of bytes accepted, or -1. A result of 0 is treated by every caller like a failure. */
    method Send(data: seq<byte>) returns (w: int, eintr: bool)
      requires data != []
      modifies this`sent, this`sendPlan
      ensures -1 <= w <= |data| && w != 0 && (eintr ==> w == -1)
      ensures sent == old(sent) + if w > 0 then data[..w] else []
      ensures sendPlan == if old(sendPlan) == [] then [] else old(sendPlan)[1..]
      ensures eintr ==> old(sendPlan) != []
      ensures w == -1 && !eintr ==> old(sendPlan) != [] && old(sendPlan)[0] == Fault
    {
      w, eintr := |data|, false;
      if sendPlan != [] {
        var e := sendPlan[0];
        sendPlan := sendPlan[1..];
        if e.Interrupted? { return -1, true; }
        if e.Fault? { return -1, false; }
        w := Min(e.limit + 1, |data|);
      }
      sent := sent + data[..w];
    }
  }

  /** How a buffer looks after got bytes of the stream have been put at off. */
  function Filled(buf: seq<byte>, off: nat, stream: seq<byte>, got: nat): seq<byte>
    requires off + got <= |buf| && got <= |stream|
  {
    buf[..off] + stream[..got] + buf[off + got..]
  }

  lemma FilledMore(buf: seq<byte>, off: nat, stream: seq<byte>, got: nat, r: nat)
    requires off + got + r <= |buf| && got + r <= |stream|
    ensures Filled(buf, off, stream, 0) == buf
    ensures Filled(Filled(buf, off, stream, got), off + got, stream[got..], r) == Filled(buf, off, stream, got + r)
  {
    var was, now := Filled(buf, off, stream, got), Filled(buf, off, stream, got + r);
    assert was[..off + got] == buf[..off] + stream[..got];
    assert was[off + got + r..] == buf[off + got + r..];
    assert stream[got..][..r] == stream[got..got + r];
    assert stream[..got + r] == stream[..got] + stream[got..got + r];
  }

  method RecvAll(sock: Socket, buf: array<byte>, off: nat, n: nat) returns (ok: bool)
    requires off + n <= buf.Length
    modifies sock`incoming, sock`recvPlan, buf
    ensures ok ==> n <= |old(sock.incoming)| && sock.incoming == old(sock.incoming)[n..]
    ensures ok ==> buf[..] == old(buf[..off]) + old(sock.incoming)[..n] + old(buf[off + n..])
    ensures Smooth(old(sock.recvPlan)) ==> Smooth(sock.recvPlan) && (ok <==> n <= |old(sock.incoming)|)
  {
    var got := 0;
    ghost var in0, buf0 := sock.incoming, buf[..];
    FilledMore(buf0, off, in0, 0, 0);
    while got < n
      invariant got <= n && got <= |in0| && sock.incoming == in0[got..]
      invariant buf[..] == Filled(buf0, off, in0, got)
      invariant Smooth(old(sock.recvPlan)) ==> Smooth(sock.recvPlan)
      decreases n - got, |sock.recvPlan|
    {
      hide Filled;
      var r, eintr := RecvSome(sock, buf, off + got, n - got);
      if r == 0 {
        return false;
      }
      if r < 0 {
        if eintr { continue; }
        return false;
      }
      FilledMore(buf0, off, in0, got, r);
      got := got + r;
    }
    ok := true;
  }

  /** recv, with the buffer as Filled describes it and with what a smooth plan leaves. */
  method RecvSome(sock: Socket, buf: array<byte>, off: nat, n: nat) returns (r: int, eintr: bool)
    requires 0 < n && off + n <= buf.Length
    modifies sock`incoming, sock`recvPlan, buf
    ensures r <= n && (r < 0 ==> sock.incoming == old(sock.incoming) && buf[..] == old(buf[..]))
    ensures r >= 0 ==> r <= |old(sock.incoming)| && sock.incoming == old(sock.incoming)[r..]
    ensures r >= 0 ==> buf[..] == Filled(old(buf[..]), off, old(sock.incoming), r)
    ensures r == 0 ==> sock.incoming == []
    ensures eintr ==> |sock.recvPlan| < |old(sock.recvPlan)|
    ensures Smooth(old(sock.recvPlan)) ==> Smooth(sock.recvPlan) && (r < 0 ==> eintr)
  {
    r, eintr := sock.Recv(buf, off, n);
  }

  /** What a failed or successful transmission leaves in the socket. */
  ghost predicate SentSome(before: seq<byte>, frame: seq<byte>, after: seq<byte>) {
    exists k :: 0 <= k <= |frame| && after == before + frame[..k]
  }

  lemma SentPrefix(before: seq<byte>, frame: seq<byte>, k: nat, after: seq<byte>)
    requires k <= |frame| && after == before + frame[..k]
    ensures SentSome(before, frame, after)
  {
  }

  /** On failure some prefix of the data may have been accepted. */
  method SendAll(sock: Socket, data: seq<byte>) returns (ok: bool)
    modifies sock`sent, sock`sendPlan
    ensures ok ==> sock.sent == old(sock.sent) + data
    ensures SentSome(old(sock.sent), data, sock.sent)
    ensures ok <==> |sock.sent| == |old(sock.sent)| + |data|
    ensures Smooth(old(sock.sendPlan)) ==> Smooth(sock.sendPlan) && ok
  {
    hide SentSome;
    var sent := 0;
    while sent < |data|
      invariant sent <= |data| && sock.sent == old(sock.sent) + data[..sent]
      invariant Smooth(old(sock.sendPlan)) ==> Smooth(sock.sendPlan)
      decreases |data| - sent, |sock.sendPlan|
    {
      var w, eintr := sock.Send(data[sent..]);
      if w <= 0 {
        if w < 0 && eintr { continue; }
        SentPrefix(old(sock.sent), data, sent, sock.sent);
        return false;
      }
      sent := sent + w;
    }
    SentPrefix(old(sock.sent), data, sent, sock.sent);
    ok := true;
  }
}
