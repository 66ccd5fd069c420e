/** Writing and reading WebSocket frames over a socket, as the server does it. */
module Frames {
  import opened Basics
  import opened Transport
  import opened FrameSpec

  // The fields of the first two bytes, by the source's masks and shifts.

  function Opcode(b: byte): (r: nat)
    ensures r == ToNat(b) % 16
  {
    ToNat(b & 0x0F)
  }

  function Length7(b: byte): (r: nat)
    ensures r == ToNat(b) % 128
  {
    ToNat(b & 0x7F)
  }

  predicate Masked(b: byte)
    ensures Masked(b) <==> ToNat(b) >= 128
  {
    (b >> 7) & 1 == 1
  }

  // -------- writing --------

  /** n shifted right by j whole bytes. */
  function ShiftRight(n: nat, j: nat): nat {
    if j == 0 then n else ShiftRight(n / 256, j - 1)
  }

  lemma {:induction false} BigEndianAt(n: nat, k: nat, i: nat)
    requires i < k
    ensures BigEndian(n, k)[i] == ToByte(ShiftRight(n, k - 1 - i) % 256)
  {
    hide ToByte;
    if i < k - 1 {
      BigEndianAt(n / 256, k - 1, i);
    }
  }

  method Header(len: nat) returns (hdr: seq<byte>)
    requires len < 0x8000_0000_0000_0000
    ensures hdr == [0x81] + LengthBytes(MinimalForm(len), 0, len)
  {
    hide ToByte, BigEndian;
    if len <= 125 {
      hdr := [0x81, ToByte(len)];
    } else if len <= 65535 {
      BigEndianAt(len, 2, 0);
      BigEndianAt(len, 2, 1);
      hdr := [0x81, ToByte(126), ToByte(ShiftRight(len, 1) % 256), ToByte(len % 256)];
      assert BigEndian(len, 2) == [ToByte(ShiftRight(len, 1) % 256), ToByte(len % 256)];
    } else {
      hdr := [0x81, ToByte(127)];
      for i := 0 to 8
        invariant hdr == [0x81, ToByte(127)] + BigEndian(len, 8)[..i]
      {
        BigEndianAt(len, 8, i);
        hdr := hdr + [ToByte(ShiftRight(len, 7 - i) % 256)];
      }
      assert BigEndian(len, 8)[..8] == BigEndian(len, 8);
    }
  }

  lemma TextFrameParts(msg: seq<byte>)
    requires |msg| < 0x8000_0000_0000_0000
    ensures TextFrame(msg) == [0x81] + LengthBytes(MinimalForm(|msg|), 0, |msg|) + msg
  {
    assert ToByte(129) == 0x81;
  }

  method SendText(sock: Socket, msg: seq<byte>) returns (ok: bool)
    requires |msg| < 0x8000_0000_0000_0000
    modifies sock`sent, sock`sendPlan
    ensures ok ==> sock.sent == old(sock.sent) + TextFrame(msg)
    ensures SentSome(old(sock.sent), TextFrame(msg), sock.sent)
    ensures ok <==> |sock.sent| == |old(sock.sent)| + |TextFrame(msg)|
    ensures Smooth(old(sock.sendPlan)) ==> Smooth(sock.sendPlan) && ok
  {
    hide LengthBytes, TextFrame;
    TextFrameParts(msg);
    var hdr := Header(|msg|);
    ok := SendBoth(sock, hdr, msg, TextFrame(msg));
  }

  lemma SentHeader(before: seq<byte>, hdr: seq<byte>, data: seq<byte>, after: seq<byte>)
    requires SentSome(before, hdr, after)
    ensures SentSome(before, hdr + data, after) && |after| <= |before| + |hdr|
  {
    var k :| 0 <= k <= |hdr| && after == before + hdr[..k];
    assert (hdr + data)[..k] == hdr[..k];
    SentPrefix(before, hdr + data, k, after);
  }

  lemma SentMore(before: seq<byte>, hdr: seq<byte>, data: seq<byte>, after: seq<byte>)
    requires SentSome(before + hdr, data, after)
    ensures SentSome(before, hdr + data, after)
  {
    var k :| 0 <= k <= |data| && after == (before + hdr) + data[..k];
    assert (hdr + data)[..|hdr| + k] == hdr + data[..k];
    assert after == before + (hdr + data)[..|hdr| + k];
    SentPrefix(before, hdr + data, |hdr| + k, after);
  }

  /** Header first, then the payload unless it is empty. */
  method SendBoth(sock: Socket, hdr: seq<byte>, data: seq<byte>, ghost frame: seq<byte>) returns (ok: bool)
    requires frame == hdr + data
    modifies sock`sent, sock`sendPlan
    ensures ok ==> sock.sent == old(sock.sent) + frame
    ensures SentSome(old(sock.sent), frame, sock.sent)
    ensures ok <==> |sock.sent| == |old(sock.sent)| + |frame|
    ensures Smooth(old(sock.sendPlan)) ==> Smooth(sock.sendPlan) && ok
  {
    hide SentSome;
    ghost var before := sock.sent;
    ok := SendAll(sock, hdr);
    SentHeader(before, hdr, data, sock.sent);
    if !ok { return; }
    if |data| > 0 {
      ok := SendAll(sock, data);
      SentMore(before, hdr, data, sock.sent);
      assert (before + hdr) + data == before + frame;
    }
  }

  /** Control frames carry at most 125 bytes; anything longer is cut. */
  function ControlFrame(opcode: nat, payload: seq<byte>): seq<byte>
    requires opcode < 16
  {
    Encode(Frame(true, opcode, [], payload[..Min(|payload|, 125)]), Short)
  }

  method SendControl(sock: Socket, opcode: nat, payload: seq<byte>) returns (ok: bool)
    requires opcode < 16
    modifies sock`sent, sock`sendPlan
    ensures ok ==> sock.sent == old(sock.sent) + ControlFrame(opcode, payload)
    ensures SentSome(old(sock.sent), ControlFrame(opcode, payload), sock.sent)
    ensures ok <==> |sock.sent| == |old(sock.sent)| + |ControlFrame(opcode, payload)|
    ensures Smooth(old(sock.sendPlan)) ==> Smooth(sock.sendPlan) && ok
  {
    hide ToByte;
    var len := |payload|;
    if len > 125 { len := 125; }
    var hdr := [ToByte(128 + opcode), ToByte(len)];
    ok := SendBoth(sock, hdr, payload[..len], ControlFrame(opcode, payload));
  }

  // -------- reading --------

  /** recv_all into a buffer of its own. */
  method RecvBytes(sock: Socket, n: nat) returns (ok: bool, bytes: array<byte>)
    modifies sock`incoming, sock`recvPlan
    ensures fresh(bytes) && bytes.Length == n
    ensures ok ==> n <= |old(sock.incoming)| && sock.incoming == old(sock.incoming)[n..]
    ensures ok ==> bytes[..] == old(sock.incoming)[..n]
    ensures ok ==> forall i :: 0 <= i < n ==> bytes[i] == old(sock.incoming)[i]
    ensures Smooth(old(sock.recvPlan)) ==> Smooth(sock.recvPlan) && (ok <==> n <= |old(sock.incoming)|)
  {
    bytes := new byte[n](_ => 0);
    ghost var s := sock.incoming;
    ok := RecvAll(sock, bytes, 0, n);
    if ok { SamePrefix(bytes[..], s, n); }
  }

  lemma SamePrefix(bytes: seq<byte>, s: seq<byte>, n: nat)
    requires |bytes| == n <= |s| && bytes == s[..n]
    ensures forall i :: 0 <= i < n ==> bytes[i] == s[i]
  {
  }

  method RecvLength(sock: Socket, h0: byte, h1: byte, ghost s: seq<byte>) returns (ok: bool, len: nat)
    requires |s| >= 2 && s[0] == h0 && s[1] == h1 && sock.incoming == s[2..]
    modifies sock`incoming, sock`recvPlan
    ensures ok ==> ParseLength(s).Some? && len == ParseLength(s).value.0 && sock.incoming == s[ParseLength(s).value.1..]
    ensures Smooth(old(sock.recvPlan)) ==> Smooth(sock.recvPlan) && (ok <==> ParseLength(s).Some?)
  {
    hide ToNat, Length7, Value, Smooth;
    ok, len := true, Length7(h1);
    Length7Is(h1);
    if len == 126 {
      var ext;
      ok, ext := RecvBytes(sock, 2);
      if !ok { return; }
      len := 256 * ToNat(ext[0]) + ToNat(ext[1]);
      assert s[2..4] == ext[..] == [ext[0], ext[1]] && s[4..] == s[2..][2..];
      ValueOfTwo(ext[0], ext[1]);
    } else if len == 127 {
      var ext;
      ok, ext := RecvBytes(sock, 8);
      if !ok { return; }
      len := ValueOfBytes(ext);
      assert s[2..10] == ext[..] && s[10..] == s[2..][8..];
    }
  }

  lemma Length7Is(b: byte)
    ensures Length7(b) == ToNat(b) % 128
  {
  }

  /** The loop that puts the eight length bytes together. */
  method ValueOfBytes(ext: array<byte>) returns (len: nat)
    ensures len == Value(ext[..])
  {
    hide ToNat, Value;
    len := 0;
    NoValue();
    for i := 0 to ext.Length
      invariant len == Value(ext[..i])
    {
      ValueNext(ext[..i], ext[i]);
      assert ext[..i + 1] == ext[..i] + [ext[i]];
      len := 256 * len + ToNat(ext[i]);
    }
    assert ext[..ext.Length] == ext[..];
  }

  lemma ValueOfTwo(a: byte, b: byte)
    ensures Value([a, b]) == 256 * ToNat(a) + ToNat(b)
  {
    hide ToNat;
    assert [a, b][..1] == [a] && [a][..0] == [];
    assert Value([a]) == ToNat(a);
  }

  method Unmask(payload: array<byte>, len: nat, key: seq<byte>)
    requires len <= payload.Length && |key| == 4
    modifies payload
    ensures forall j :: 0 <= j < len ==> payload[j] == old(payload[j]) ^ key[j % 4]
    ensures payload[..len] == Mask(key, old(payload[..len])) && payload[len..] == old(payload[len..])
  {
    for i := 0 to len
      invariant forall j :: 0 <= j < i ==> payload[j] == old(payload[j]) ^ key[j % 4]
      invariant forall j :: i <= j < payload.Length ==> payload[j] == old(payload[j])
    {
      payload[i] := payload[i] ^ key[i % 4];
    }
  }

  method RecvKey(sock: Socket, masked: bool) returns (ok: bool, key: seq<byte>)
    modifies sock`incoming, sock`recvPlan
    ensures ok ==> |key| == (if masked then 4 else 0) <= |old(sock.incoming)|
    ensures ok ==> key == old(sock.incoming)[..|key|] && sock.incoming == old(sock.incoming)[|key|..]
    ensures Smooth(old(sock.recvPlan)) ==> Smooth(sock.recvPlan) && (ok <==> masked ==> 4 <= |old(sock.incoming)|)
  {
    ok, key := true, [];
    if masked {
      var mask;
      ok, mask := RecvBytes(sock, 4);
      key := mask[..];
    }
  }

  /** The payload buffer holds one byte more than the payload, a terminating NUL. */
  method RecvPayload(sock: Socket, len: nat, key: seq<byte>) returns (ok: bool, payload: array<byte>)
    requires |key| in {0, 4}
    modifies sock`incoming, sock`recvPlan
    ensures fresh(payload) && payload.Length == len + 1
    ensures ok ==> len <= |old(sock.incoming)| && sock.incoming == old(sock.incoming)[len..]
    ensures ok ==> var data := old(sock.incoming)[..len];
                   payload[..len] == (if key == [] then data else Mask(key, data)) && payload[len] == 0
    ensures Smooth(old(sock.recvPlan)) ==> Smooth(sock.recvPlan) && (ok <==> len <= |old(sock.incoming)|)
  {
    hide Mask;
    payload := new byte[len + 1](_ => 0);
    ok := RecvAll(sock, payload, 0, len);
    if !ok { return; }
    assert payload[..len] == old(sock.incoming)[..len];
    if key != [] {
      Unmask(payload, len, key);
    }
    payload[len] := 0;
  }

  /** What ParseFrame finds behind a complete length field. */
  lemma BehindLength(s: seq<byte>, len: nat, head: nat)
    requires |s| >= 2 && ParseLength(s) == Some((len, head))
    ensures var n := if Masked(s[1]) then 4 else 0;
            var key := if |s| < head + n then [] else s[head..head + n];
            ParseFrame(s, MAX_PAYLOAD)
              == if len > MAX_PAYLOAD || |s| - head < n || |s[head + n..]| < len then None else
              Some(Parsed(Opcode(s[0]), if key == [] then s[head + n..][..len] else Mask(key, s[head + n..][..len]),
                          s[head + n..][len..]))
  {
    hide ToNat, Mask, ParseLength;
    var start := if Masked(s[1]) then head + 4 else head;
    if |s| >= start + len { SliceTwice(s, start, len); }
  }

  lemma SliceTwice(s: seq<byte>, i: nat, n: nat)
    requires i + n <= |s|
    ensures s[i..][..n] == s[i..i + n] && s[i..][n..] == s[i + n..]
  {
  }

  /** The start of ws_recv_frame: the first two bytes and the length. */
  method RecvHead(sock: Socket) returns (ok: bool, opcode: nat, masked: bool, len: nat)
    modifies sock`incoming, sock`recvPlan
    ensures ok ==>
      var s := old(sock.incoming);
      && |s| >= 2 && opcode == Opcode(s[0]) && masked == Masked(s[1])
      && ParseLength(s).Some? && len == ParseLength(s).value.0 && sock.incoming == s[ParseLength(s).value.1..]
    ensures Smooth(old(sock.recvPlan)) ==>
      Smooth(sock.recvPlan) && (ok <==> ParseLength(old(sock.incoming)).Some?)
  {
    hide ParseLength, Opcode, Masked;
    ghost var s := sock.incoming;
    ok, opcode, masked, len := false, 0, false, 0;
    var got, h2 := RecvBytes(sock, 2);
    if !got { TooShort(s); return; }
    assert h2[0] == s[0] && h2[1] == s[1];
    opcode, masked := Opcode(h2[0]), Masked(h2[1]);
    ok, len := RecvLength(sock, h2[0], h2[1], s);
  }

  lemma TooShort(s: seq<byte>)
    ensures |s| < 2 ==> ParseLength(s).None?
  {
  }

  method RecvFrame(sock: Socket) returns (ok: bool, opcode: nat, payload: array?<byte>, len: nat)
    modifies sock`incoming, sock`recvPlan
    ensures ok ==> payload != null && fresh(payload) && payload.Length == len + 1 && payload[len] == 0
    ensures ok ==> ParseFrame(old(sock.incoming), MAX_PAYLOAD) == Some(Parsed(opcode, payload[..len], sock.incoming))
    ensures ok ==> Carries(old(sock.incoming), payload[..len]) && len <= 0x10_0000
    ensures Smooth(old(sock.recvPlan)) ==>
      Smooth(sock.recvPlan) && (ok <==> ParseFrame(old(sock.incoming), MAX_PAYLOAD).Some?)
  {
    hide Mask, ParseLength, Opcode, Masked, Smooth, Carries;
    ghost var s := sock.incoming;
    payload := null;
    var masked, key;
    ok, opcode, masked, len := RecvHead(sock);
    NoLength(s);
    if ok { BehindLength(s, len, ParseLength(s).value.1); }
    hide ParseFrame;
    if !ok || len > MAX_PAYLOAD { return false, opcode, null, len; }
    ghost var head := ParseLength(s).value.1;
    ok, key := RecvKey(sock, masked);
    if !ok { return; }
    assert sock.incoming == s[head + |key|..] && key == s[head..head + |key|];
    ok, payload := RecvPayload(sock, len, key);
    if ok { ParsedCarries(s, MAX_PAYLOAD); }
  }

  lemma NoLength(s: seq<byte>)
    ensures ParseLength(s).None? ==> ParseFrame(s, MAX_PAYLOAD).None?
  {
  }
}
