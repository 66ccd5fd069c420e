/** The streaming SHA-1 of the WebSocket server, refining Sha1Spec. */
module Sha1 {
  import opened Basics
  import opened Sha1Spec

  lemma OrFormsAreXorForms(b: word, c: word, d: word)
    ensures (b & c) | (!b & d) == Ch(b, c, d)
    ensures (b & c) | (b & d) | (c & d) == Maj(b, c, d)
    ensures b ^ c ^ d == Parity(b, c, d)
  {
  }

  /** A block's word as sha1_transform assembles it. */
  function LoadWord(b0: byte, b1: byte, b2: byte, b3: byte): (r: word)
    ensures r == BigEndian(b0, b1, b2, b3)
  {
    ((b0 as word) << 24) | ((b1 as word) << 16) | ((b2 as word) << 8) | (b3 as word)
  }

  lemma ShiftMaskIsWordBytes(w: word)
    ensures [((w >> 24) & 0xFF) as byte, ((w >> 16) & 0xFF) as byte, ((w >> 8) & 0xFF) as byte, (w & 0xFF) as byte]
         == WordBytes(w)
  {
  }

  lemma LoadedWord(b: seq<byte>, t: nat)
    requires |b| == 64 && t < 16
    ensures LoadWord(b[4 * t], b[4 * t + 1], b[4 * t + 2], b[4 * t + 3]) == Schedule(b, t)
  {
    hide LoadWord, BigEndian, Mix;
    LoadIsBigEndian(b[4 * t], b[4 * t + 1], b[4 * t + 2], b[4 * t + 3]);
  }

  lemma LoadIsBigEndian(b0: byte, b1: byte, b2: byte, b3: byte)
    ensures LoadWord(b0, b1, b2, b3) == BigEndian(b0, b1, b2, b3)
  {
  }

  lemma MixedWord(b: seq<byte>, t: nat)
    requires |b| == 64 && 16 <= t
    ensures Mix(Schedule(b, t - 3), Schedule(b, t - 8), Schedule(b, t - 14), Schedule(b, t - 16)) == Schedule(b, t)
  {
    hide Mix, BigEndian;
  }

  method ExpandSchedule(block: array<byte>, off: nat) returns (w: array<word>)
    requires off + 64 <= block.Length
    ensures fresh(w) && w.Length == 80
    ensures forall t :: 0 <= t < 80 ==> w[t] == Schedule(block[off..off + 64], t)
  {
    hide LoadWord, Schedule, Mix;
    ghost var b := block[off..off + 64];
    w := new word[80];
    for i := 0 to 16
      invariant forall t :: 0 <= t < i ==> w[t] == Schedule(b, t)
    {
      w[i] := LoadWord(block[off + i * 4 + 0], block[off + i * 4 + 1], block[off + i * 4 + 2], block[off + i * 4 + 3]);
      LoadedWord(b, i);
    }
    for i := 16 to 80
      invariant forall t :: 0 <= t < i ==> w[t] == Schedule(b, t)
    {
      w[i] := Mix(w[i - 3], w[i - 8], w[i - 14], w[i - 16]);
      MixedWord(b, i);
    }
  }

  lemma StepIsRound(v: Hash, t: nat, w: word, f: word, k: word, r5: word, r30: word)
    requires f == F(t, v.b, v.c, v.d) && k == K(t) && r5 == Rotl(v.a, 5) && r30 == Rotl(v.b, 30)
    ensures Hash(Sum(r5, f, v.e, k, w), v.a, r30, v.c, v.d) == Round(v, t, w)
  {
    hide F, K, Rotl, Sum;
  }

  /** The four-way choice inside the round loop of sha1_transform. */
  method RoundFunction(i: nat, b: word, c: word, d: word) returns (f: word, k: word)
    ensures f == F(i, b, c, d) && k == K(i)
  {
    OrFormsAreXorForms(b, c, d);
    hide Ch, Maj, Parity;
    if i < 20 {
      f := (b & c) | (!b & d);
      k := 0x5A827999;
    } else if i < 40 {
      f := b ^ c ^ d;
      k := 0x6ED9EBA1;
    } else if i < 60 {
      f := (b & c) | (b & d) | (c & d);
      k := 0x8F1BBCDC;
    } else {
      f := b ^ c ^ d;
      k := 0xCA62C1D6;
    }
  }

  method RunRounds(w: array<word>, h: Hash, ghost block: seq<byte>) returns (v: Hash)
    requires w.Length == 80 && |block| == 64
    requires forall t :: 0 <= t < 80 ==> w[t] == Schedule(block, t)
    ensures v == Rounds(h, block, 80)
  {
    var a, b, c, d, e := h.a, h.b, h.c, h.d, h.e;
    for i := 0 to 80
      invariant Hash(a, b, c, d, e) == Rounds(h, block, i)
    {
      hide F, K, Rotl, Sum, Schedule;
      var f, k := RoundFunction(i, b, c, d);
      StepIsRound(Hash(a, b, c, d, e), i, w[i], f, k, Rotl(a, 5), Rotl(b, 30));
      var temp := Sum(Rotl(a, 5), f, e, k, w[i]);
      e := d;
      d := c;
      c := Rotl(b, 30);
      b := a;
      a := temp;
    }
    v := Hash(a, b, c, d, e);
  }

  method Transform(state: array<word>, block: array<byte>, off: nat)
    requires state.Length == 5 && off + 64 <= block.Length
    modifies state
    ensures FromWords(state[..]) == Compress(FromWords(old(state[..])), block[off..off + 64])
  {
    hide Rounds, Plus;
    var w := ExpandSchedule(block, off);
    var h := Hash(state[0], state[1], state[2], state[3], state[4]);
    var v := RunRounds(w, h, block[off..off + 64]);
    var r := Plus(h, v);
    state[0], state[1], state[2], state[3], state[4] := r.a, r.b, r.c, r.d, r.e;
  }

  lemma Appended(m: seq<byte>, d: seq<byte>, i: nat)
    requires i <= |m|
    ensures (m + d)[i..|m|] == m[i..] && (m + d)[|m|..] == d
  {
  }

  /** sha1_ctx_t. The count of bits is 64 bits wide and wraps; msg is everything hashed so far. */
  class Context {
    const state: array<word>
    var count: nat
    const buffer: array<byte>
    ghost var msg: seq<byte>

    ghost predicate Valid()
      reads this, state, buffer
    {
      && state.Length == 5
      && buffer.Length == 64
      && count == BitCount(|msg|)
      && FromWords(state[..]) == HashBlocks(msg, |msg| / 64)
      && buffer[..|msg| - 64 * (|msg| / 64)] == msg[64 * (|msg| / 64)..]
    }

    constructor ()
      ensures Valid() && msg == []
      ensures fresh(state) && fresh(buffer)
    {
      state := new word[] [0x67452301, 0xEFCDAB89, 0x98BADCFE, 0x10325476, 0xC3D2E1F0];
      count := 0;
      buffer := new byte[64](_ => 0);
      msg := [];
    }

    method Update(data: array<byte>, len: nat)
      requires Valid() && len <= data.Length && data != buffer
      modifies this, state, buffer
      ensures Valid() && msg == old(msg) + data[..len]
    {
      hide Compress, HashBlocks, BitCount, BufferOffset, AddBits, FromWords;
      var idx := BufferOffset(count);
      count := AddBits(count, len);
      ghost var start, k := |msg|, |msg| / 64;
      BufferIndex(start);
      CountAdds(start, len);
      HashBlocksPrefix(msg, msg + data[..len], k);
      Appended(msg, data[..len], 64 * k);
      msg := msg + data[..len];
      k := TakeIn(state, buffer, idx, data, len, msg, k);
      WholeBlocks(|msg|, k);
    }

    method Final(out: array<byte>)
      requires Valid() && out.Length == 20 && out != buffer
      modifies this, state, buffer, out
      ensures out[..] == Digest(old(msg))
    {
      hide Compress, HashBlocks, BitCount, Bytes64, ZeroBytes, HashBytes, BufferOffset;
      ghost var m := msg;
      var lenBytes := LengthBytes(count);
      var idx := BufferOffset(count);
      BufferIndex(|m|);
      var pad, padLen := PadBytes(idx, |m|);
      Update(pad, padLen);
      Update(lenBytes, 8);
      assert msg == Pad(m);
      StoreWords(state, out);
    }
  }

  method PadBytes(idx: nat, ghost n: nat) returns (pad: array<byte>, padLen: nat)
    requires idx == n % 64
    ensures fresh(pad) && padLen <= pad.Length
    ensures pad[..padLen] == [0x80] + seq(ZeroBytes(n), _ => 0)
  {
    pad := new byte[64](i => if i == 0 then 0x80 else 0);
    padLen := if idx < 56 then 56 - idx else 120 - idx;
    assert padLen == 1 + ZeroBytes(n);
  }

  method LengthBytes(count: nat) returns (bytes: array<byte>)
    ensures fresh(bytes) && bytes.Length == 8 && bytes[..8] == Bytes64(count)
  {
    hide LowByte;
    bytes := new byte[8];
    var bits := count;
    for i := 0 to 8
      invariant forall j :: 0 <= j < i ==> bytes[7 - j] == Digit(count, j)
      invariant bits == Quotient(count, i)
    {
      bytes[7 - i] := LowByte(bits);
      bits := bits / 256;
    }
  }

  method StoreWords(state: array<word>, out: array<byte>)
    requires state.Length == 5 && out.Length == 20
    modifies out
    ensures out[..] == HashBytes(FromWords(state[..]))
  {
    hide WordBytes;
    for i := 0 to 5
      invariant forall j :: 0 <= j < i ==> out[4 * j..4 * j + 4] == WordBytes(state[j])
    {
      var s := state[i];
      ShiftMaskIsWordBytes(s);
      out[i * 4 + 0] := ((s >> 24) & 0xFF) as byte;
      out[i * 4 + 1] := ((s >> 16) & 0xFF) as byte;
      out[i * 4 + 2] := ((s >> 8) & 0xFF) as byte;
      out[i * 4 + 3] := (s & 0xFF) as byte;
    }
    assert out[..] == out[0..4] + out[4..8] + out[8..12] + out[12..16] + out[16..20];
  }

  function Concat(pieces: seq<seq<byte>>): seq<byte> {
    if pieces == [] then [] else Concat(pieces[..|pieces| - 1]) + pieces[|pieces| - 1]
  }

  /** However a message is cut into pieces, initialising, updating with each piece and finishing gives the
      digest FIPS 180-4 assigns to the whole message. */
  method HashPieces(pieces: seq<seq<byte>>) returns (digest: seq<byte>)
    ensures digest == Digest(Concat(pieces))
  {
    var ctx := new Context();
    for i := 0 to |pieces|
      invariant ctx.Valid() && fresh(ctx) && fresh(ctx.state) && fresh(ctx.buffer)
      invariant ctx.msg == Concat(pieces[..i])
    {
      var piece := pieces[i];
      var data := new byte[|piece|](j requires 0 <= j < |piece| => piece[j]);
      ctx.Update(data, |piece|);
      assert data[..|piece|] == piece && pieces[..i + 1][..i] == pieces[..i];
    }
    assert pieces[..|pieces|] == pieces;
    var out := new byte[20];
    ctx.Final(out);
    digest := out[..];
  }

  /** sha1_update once the count is brought up to date: idx bytes of the block k are in the buffer. */
  method TakeIn(state: array<word>, buffer: array<byte>, idx: nat, data: array<byte>, len: nat,
                ghost msg: seq<byte>, ghost k0: nat)
    returns (ghost k: nat)
    requires state.Length == 5 && buffer.Length == 64 && data != buffer
    requires idx < 64 && len <= data.Length && |msg| == 64 * k0 + idx + len
    requires buffer[..idx] == msg[64 * k0..64 * k0 + idx] && msg[64 * k0 + idx..] == data[..len]
    requires FromWords(state[..]) == HashBlocks(msg, k0)
    modifies state, buffer
    ensures 64 * k <= |msg| < 64 * k + 64
    ensures FromWords(state[..]) == HashBlocks(msg, k) && buffer[..|msg| - 64 * k] == msg[64 * k..]
  {
    hide Compress, HashBlocks, FromWords;
    k := k0;
    var part := 64 - idx;
    var i, at := 0, idx;
    if len >= part {
      FillBlock(state, buffer, idx, data, len, msg, k);
      i, k := TransformBlocks(state, data, part, len, msg, 64 * k + idx, k + 1);
      at := 0;
    }
    KeepTail(buffer, at, data, i, len, msg, 64 * k0 + idx, k);
  }

  /** The last step of sha1_update: what fills no block stays in the buffer. */
  method KeepTail(buffer: array<byte>, idx: nat, data: array<byte>, i: nat, len: nat,
                  ghost msg: seq<byte>, ghost start: nat, ghost k: nat)
    requires data != buffer && i <= len <= data.Length && idx + (len - i) <= buffer.Length
    requires 64 * k + idx == start + i && |msg| == start + len && msg[start..] == data[..len]
    requires buffer[..idx] == msg[64 * k..start + i]
    modifies buffer
    ensures buffer[..idx + (len - i)] == msg[64 * k..]
  {
    if i < len {
      assert data[i..len] == msg[start..][i..] == msg[start + i..];
      Copy(buffer, idx, data, i, len - i);
    }
  }

  /** A tail of the message in the buffer and the data behind it make up the next block. */
  lemma Completed(block: seq<byte>, msg: seq<byte>, data: seq<byte>, k: nat, idx: nat)
    requires |block| == 64 && idx <= 64 <= idx + |data| && |msg| == 64 * k + idx + |data|
    requires block[..idx] == msg[64 * k..64 * k + idx] && block[idx..] == data[..64 - idx]
    requires msg[64 * k + idx..] == data
    ensures block == msg[64 * k..64 * k + 64]
  {
    forall i | 0 <= i < 64 ensures block[i] == msg[64 * k + i] {
      if i < idx {
        assert block[i] == block[..idx][i] == msg[64 * k..64 * k + idx][i];
      } else {
        assert block[i] == block[idx..][i - idx] == data[i - idx] == msg[64 * k + idx..][i - idx];
      }
    }
  }

  /** The start of sha1_update when data completes the buffered block. */
  method FillBlock(state: array<word>, buffer: array<byte>, idx: nat, data: array<byte>, len: nat,
                   ghost msg: seq<byte>, ghost k: nat)
    requires state.Length == 5 && buffer.Length == 64 && data != buffer
    requires idx < 64 <= idx + len && len <= data.Length && |msg| == 64 * k + idx + len
    requires buffer[..idx] == msg[64 * k..64 * k + idx] && msg[64 * k + idx..] == data[..len]
    requires FromWords(state[..]) == HashBlocks(msg, k)
    modifies state, buffer
    ensures FromWords(state[..]) == HashBlocks(msg, k + 1)
  {
    hide Compress, HashBlocks, FromWords;
    Copy(buffer, idx, data, 0, 64 - idx);
    assert data[0..64 - idx] == data[..len][..64 - idx] && buffer[0..64] == buffer[..];
    assert buffer[idx..64] == buffer[idx..];
    Completed(buffer[..], msg, data[..len], k, idx);
    Transform(state, buffer, 0);
    HashBlocksNext(msg, k);
  }

  /** The inner loop of sha1_update: whole blocks are compressed straight from the caller's data. */
  method TransformBlocks(state: array<word>, data: array<byte>, from: nat, len: nat,
                         ghost msg: seq<byte>, ghost start: nat, ghost k0: nat)
    returns (i: nat, ghost k: nat)
    requires state.Length == 5 && from <= len <= data.Length
    requires |msg| == start + len && msg[start..] == data[..len]
    requires start + from == 64 * k0 && FromWords(state[..]) == HashBlocks(msg, k0)
    modifies state
    ensures from <= i <= len < i + 64
    ensures start + i == 64 * k && FromWords(state[..]) == HashBlocks(msg, k)
  {
    hide Compress, HashBlocks, FromWords;
    i, k := from, k0;
    while i + 63 < len
      invariant from <= i <= len
      invariant start + i == 64 * k && FromWords(state[..]) == HashBlocks(msg, k)
    {
      Transform(state, data, i);
      assert data[i..i + 64] == msg[start..][i..i + 64] == msg[64 * k..64 * k + 64];
      HashBlocksNext(msg, k);
      i, k := i + 64, k + 1;
    }
  }

  lemma HashBlocksNext(m: seq<byte>, k: nat)
    requires 64 * k + 64 <= |m|
    ensures HashBlocks(m, k + 1) == Compress(HashBlocks(m, k), m[64 * k..64 * k + 64])
  {
    hide Compress;
  }

  lemma WholeBlocks(n: nat, k: nat)
    requires 64 * k <= n < 64 * k + 64
    ensures n / 64 == k
  {
  }

  /** The index into the buffer that a bit count gives. */
  function BufferOffset(count: nat): nat { (count / 8) % 64 }

  /** 64-bit addition of the bits in len bytes. */
  function AddBits(count: nat, len: nat): nat { (count + 8 * len) % TWO_64 }

  lemma BufferIndex(n: nat)
    ensures BufferOffset(BitCount(n)) == n % 64 == n - 64 * (n / 64)
  {
    // 2^61 bytes are 2^64 bits, and 64 divides 2^61.
    var q, r := n / 0x2000_0000_0000_0000, n % 0x2000_0000_0000_0000;
    DivMod(8 * n, TWO_64, q, 8 * r);
    DivMod(8 * r, 8, r, 0);
    DivMod(n, 64, 0x80_0000_0000_0000 * q + r / 64, r % 64);
  }

  lemma CountAdds(n: nat, k: nat)
    ensures AddBits(BitCount(n), k) == BitCount(n + k)
  {
    var q, r := (8 * n) / TWO_64, (8 * n) % TWO_64;
    var p, s := (r + 8 * k) / TWO_64, (r + 8 * k) % TWO_64;
    DivMod(8 * (n + k), TWO_64, q + p, s);
  }

  /** memcpy from data[from..from + n] to buffer[to..to + n]. */
  method Copy(buffer: array<byte>, to: nat, data: array<byte>, from: nat, n: nat)
    requires to + n <= buffer.Length && from + n <= data.Length && buffer != data
    modifies buffer
    ensures buffer[to..to + n] == data[from..from + n]
    ensures buffer[..to] == old(buffer[..to]) && buffer[to + n..] == old(buffer[to + n..])
  {
    forall j | 0 <= j < n {
      buffer[to + j] := data[from + j];
    }
  }
}
