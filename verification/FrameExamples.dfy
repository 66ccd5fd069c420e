/** The frames of section 5.7 of RFC 6455, written and read, and the payload limit of the reader. */
module FrameExamples {
  import opened Basics
  import opened FrameSpec

  const HELLO: seq<byte> := [0x48, 0x65, 0x6C, 0x6C, 0x6F]
  const KEY: seq<byte> := [0x37, 0xFA, 0x21, 0x3D]
  const MASKED_HELLO: seq<byte> := [0x7F, 0x9F, 0x4D, 0x51, 0x58]

  lemma MaskOfHello()
    ensures Mask(KEY, HELLO) == MASKED_HELLO && Mask(KEY, MASKED_HELLO) == HELLO
  {
  }

  /** Numbers below 256 that the first two bytes of the frames stand for. */
  lemma Numbers()
    ensures ToNat(0x01) == 0x01 && ToNat(0x03) == 0x03 && ToNat(0x05) == 0x05 && ToNat(0x02) == 0x02
    ensures ToNat(0x80) == 0x80 && ToNat(0x81) == 0x81 && ToNat(0x82) == 0x82 && ToNat(0x89) == 0x89
    ensures ToNat(0x8A) == 0x8A && ToNat(0x85) == 0x85 && ToNat(0x7E) == 0x7E && ToNat(0x7F) == 0x7F
    ensures ToNat(0) == 0 && ToNat(0x10) == 0x10
  {
  }

  lemma ShortFrame(s: seq<byte>, a: byte, b: byte, data: seq<byte>, rest: seq<byte>, max: nat)
    requires s == [a, b] + data + rest && |data| <= 125 && ToNat(b) == |data| <= max
    ensures ParseFrame(s, max) == Some(Parsed(ToNat(a) % 16, data, rest))
  {
    hide ToNat, Value;
    assert s[2..2 + |data|] == data && s[2 + |data|..] == rest;
  }

  lemma ShortMaskedFrame(s: seq<byte>, a: byte, b: byte, key: seq<byte>, data: seq<byte>, rest: seq<byte>, max: nat)
    requires s == [a, b] + key + data + rest && |key| == 4 && |data| <= 125 && ToNat(b) == 128 + |data| && |data| <= max
    ensures ParseFrame(s, max) == Some(Parsed(ToNat(a) % 16, Mask(key, data), rest))
  {
    hide ToNat, Mask, Value;
    assert ParseLength(s) == Some((|data|, 2));
    hide ParseLength;
    assert s[2..6] == key && s[6..6 + |data|] == data && s[6 + |data|..] == rest;
  }

  /** A single-frame unmasked text message. */
  lemma UnmaskedText(rest: seq<byte>)
    ensures ParseFrame([0x81, 0x05, 0x48, 0x65, 0x6C, 0x6C, 0x6F] + rest, MAX_PAYLOAD) == Some(Parsed(1, HELLO, rest))
  {
    hide ParseFrame;
    Numbers();
    var s := [0x81, 0x05, 0x48, 0x65, 0x6C, 0x6C, 0x6F] + rest;
    assert s == [0x81, 0x05] + HELLO + rest;
    ShortFrame(s, 0x81, 0x05, HELLO, rest, MAX_PAYLOAD);
  }

  /** A single-frame masked text message. */
  lemma MaskedText(rest: seq<byte>)
    ensures ParseFrame([0x81, 0x85, 0x37, 0xFA, 0x21, 0x3D, 0x7F, 0x9F, 0x4D, 0x51, 0x58] + rest, MAX_PAYLOAD)
         == Some(Parsed(1, HELLO, rest))
  {
    hide ParseFrame;
    Numbers();
    MaskOfHello();
    var s := [0x81, 0x85, 0x37, 0xFA, 0x21, 0x3D, 0x7F, 0x9F, 0x4D, 0x51, 0x58] + rest;
    assert s == [0x81, 0x85] + KEY + MASKED_HELLO + rest;
    ShortMaskedFrame(s, 0x81, 0x85, KEY, MASKED_HELLO, rest, MAX_PAYLOAD);
  }

  /** A fragmented unmasked text message: the reader takes the two frames for two messages. */
  lemma Fragments()
    ensures ParseFrame([0x01, 0x03, 0x48, 0x65, 0x6C], MAX_PAYLOAD) == Some(Parsed(1, HELLO[..3], []))
    ensures ParseFrame([0x80, 0x02, 0x6C, 0x6F], MAX_PAYLOAD) == Some(Parsed(0, HELLO[3..], []))
  {
    hide ParseFrame;
    Numbers();
    ShortFrame([0x01, 0x03, 0x48, 0x65, 0x6C], 0x01, 0x03, HELLO[..3], [], MAX_PAYLOAD);
    ShortFrame([0x80, 0x02, 0x6C, 0x6F], 0x80, 0x02, HELLO[3..], [], MAX_PAYLOAD);
  }

  /** An unmasked ping, and its masked response. */
  lemma PingAndPong()
    ensures ParseFrame([0x89, 0x05, 0x48, 0x65, 0x6C, 0x6C, 0x6F], MAX_PAYLOAD) == Some(Parsed(9, HELLO, []))
    ensures ParseFrame([0x8A, 0x85, 0x37, 0xFA, 0x21, 0x3D, 0x7F, 0x9F, 0x4D, 0x51, 0x58], MAX_PAYLOAD)
         == Some(Parsed(10, HELLO, []))
  {
    hide ParseFrame;
    Numbers();
    MaskOfHello();
    ShortFrame([0x89, 0x05, 0x48, 0x65, 0x6C, 0x6C, 0x6F], 0x89, 0x05, HELLO, [], MAX_PAYLOAD);
    ShortMaskedFrame([0x8A, 0x85, 0x37, 0xFA, 0x21, 0x3D, 0x7F, 0x9F, 0x4D, 0x51, 0x58], 0x8A, 0x85, KEY, MASKED_HELLO,
                     [], MAX_PAYLOAD);
  }

  /** 256 bytes of binary data in a single unmasked frame. */
  lemma MediumFrame(data: seq<byte>, rest: seq<byte>)
    requires |data| == 256
    ensures ParseFrame([0x82, 0x7E, 0x01, 0x00] + data + rest, MAX_PAYLOAD)
         == Some(Parsed(2, data, rest))
  {
    Numbers();
    var s := [0x82, 0x7E, 0x01, 0x00] + data + rest;
    assert s[2..4] == [0x01, 0x00] && s[4..4 + 256] == data && s[4 + 256..] == rest;
    ValueOfPair([0x01, 0x00]);
    hide ToNat, Value;
  }

  lemma ValueOfEight(b: byte, c: byte, d: byte)
    ensures Value([0, 0, 0, 0, 0, b, c, d]) == 0x1_0000 * ToNat(b) + 0x100 * ToNat(c) + ToNat(d)
  {
    Numbers();
    hide ToNat;
    NoValue();
    hide Value;
    ValueNext([], 0);
    ValueNext([0], 0);
    ValueNext([0, 0], 0);
    ValueNext([0, 0, 0], 0);
    ValueNext([0, 0, 0, 0], 0);
    ValueNext([0, 0, 0, 0, 0], b);
    ValueNext([0, 0, 0, 0, 0, b], c);
    ValueNext([0, 0, 0, 0, 0, b, c], d);
    assert [] + [0 as byte] == [0] && [0 as byte] + [0] == [0, 0] && [0 as byte, 0] + [0] == [0, 0, 0];
    assert [0, 0, 0] + [0 as byte] == [0, 0, 0, 0] && [0, 0, 0, 0] + [0 as byte] == [0, 0, 0, 0, 0];
    assert [0, 0, 0, 0, 0] + [b] == [0, 0, 0, 0, 0, b] && [0, 0, 0, 0, 0, b] + [c] == [0, 0, 0, 0, 0, b, c];
    assert [0, 0, 0, 0, 0, b, c] + [d] == [0, 0, 0, 0, 0, b, c, d];
  }

  lemma LongFrame(s: seq<byte>, b: byte, c: byte, d: byte, data: seq<byte>, rest: seq<byte>)
    requires s == [0x82, 0x7F, 0, 0, 0, 0, 0, b, c, d] + data + rest
    requires |data| == 0x1_0000 * ToNat(b) + 0x100 * ToNat(c) + ToNat(d)
    ensures ParseFrame(s, MAX_PAYLOAD) == if |data| > MAX_PAYLOAD then None else Some(Parsed(2, data, rest))
  {
    Numbers();
    hide ToNat;
    ValueOfEight(b, c, d);
    assert s[2..10] == [0, 0, 0, 0, 0, b, c, d];
    assert ParseLength(s) == Some((|data|, 10));
    hide Value, ParseLength;
    assert s[10..10 + |data|] == data && s[10 + |data|..] == rest;
  }

  /** 64 KiB of binary data in a single unmasked frame. */
  lemma LargeFrame(data: seq<byte>, rest: seq<byte>)
    requires |data| == 65536
    ensures ParseFrame([0x82, 0x7F, 0, 0, 0, 0, 0, 0x01, 0, 0] + data + rest, MAX_PAYLOAD)
         == Some(Parsed(2, data, rest))
  {
    hide ParseFrame;
    Numbers();
    LongFrame([0x82, 0x7F, 0, 0, 0, 0, 0, 0x01, 0, 0] + data + rest, 0x01, 0, 0, data, rest);
  }

  /** 1048576 bytes are the most that the reader accepts. */
  lemma LargestFrame(data: seq<byte>, more: seq<byte>, rest: seq<byte>)
    requires |data| == 1048576 && |more| == 1048577
    ensures ParseFrame([0x82, 0x7F, 0, 0, 0, 0, 0, 0x10, 0, 0] + data + rest, MAX_PAYLOAD)
         == Some(Parsed(2, data, rest))
    ensures ParseFrame([0x82, 0x7F, 0, 0, 0, 0, 0, 0x10, 0, 0x01] + more + rest, MAX_PAYLOAD) == None
  {
    hide ParseFrame;
    Numbers();
    LongFrame([0x82, 0x7F, 0, 0, 0, 0, 0, 0x10, 0, 0] + data + rest, 0x10, 0, 0, data, rest);
    LongFrame([0x82, 0x7F, 0, 0, 0, 0, 0, 0x10, 0, 0x01] + more + rest, 0x10, 0, 0x01, more, rest);
  }

  // -------- writing --------

  lemma Bytes(n: nat, b: byte)
    requires ToNat(b) == n
    ensures ToByte(n) == b
  {
    ByteOfNat(b);
  }

  lemma ShortEncoded(f: Frame, a: byte, b: byte, data: seq<byte>)
    requires |f.payload| <= 125 && ToNat(a) == (if f.fin then 128 else 0) + f.opcode
    requires ToNat(b) == |f.payload| + if f.key == [] then 0 else 128
    requires data == if f.key == [] then f.payload else f.key + Mask(f.key, f.payload)
    ensures Encode(f, Short) == [a, b] + data
  {
    hide ToNat, ToByte, Mask;
    Bytes(ToNat(a), a);
    Bytes(ToNat(b), b);
  }

  /** The server's text frame of "Hello" is the one of the standard. */
  lemma TextWritten()
    ensures TextFrame(HELLO) == [0x81, 0x05, 0x48, 0x65, 0x6C, 0x6C, 0x6F]
    ensures Encode(Frame(true, 1, KEY, HELLO), Short)
         == [0x81, 0x85, 0x37, 0xFA, 0x21, 0x3D, 0x7F, 0x9F, 0x4D, 0x51, 0x58]
  {
    hide Encode, ToNat;
    Numbers();
    MaskOfHello();
    hide Mask;
    ShortEncoded(Frame(true, 1, [], HELLO), 0x81, 0x05, HELLO);
    ShortEncoded(Frame(true, 1, KEY, HELLO), 0x81, 0x85, KEY + MASKED_HELLO);
  }

  lemma FragmentsWritten()
    ensures Encode(Frame(false, 1, [], HELLO[..3]), Short) == [0x01, 0x03, 0x48, 0x65, 0x6C]
    ensures Encode(Frame(true, 0, [], HELLO[3..]), Short) == [0x80, 0x02, 0x6C, 0x6F]
  {
    hide Encode, ToNat;
    Numbers();
    ShortEncoded(Frame(false, 1, [], HELLO[..3]), 0x01, 0x03, HELLO[..3]);
    ShortEncoded(Frame(true, 0, [], HELLO[3..]), 0x80, 0x02, HELLO[3..]);
  }

  lemma PingAndPongWritten()
    ensures Encode(Frame(true, 9, [], HELLO), Short) == [0x89, 0x05, 0x48, 0x65, 0x6C, 0x6C, 0x6F]
    ensures Encode(Frame(true, 10, KEY, HELLO), Short)
         == [0x8A, 0x85, 0x37, 0xFA, 0x21, 0x3D, 0x7F, 0x9F, 0x4D, 0x51, 0x58]
  {
    hide Encode, ToNat;
    Numbers();
    MaskOfHello();
    hide Mask;
    ShortEncoded(Frame(true, 9, [], HELLO), 0x89, 0x05, HELLO);
    ShortEncoded(Frame(true, 10, KEY, HELLO), 0x8A, 0x85, KEY + MASKED_HELLO);
  }

  lemma TwoBytes()
    ensures BigEndian(256, 2) == [0x01, 0x00]
  {
    Numbers();
    Bytes(0, 0);
    Bytes(1, 1);
    hide ToByte;
    assert BigEndian(1, 1) == [0x01];
  }

  lemma EightBytes()
    ensures BigEndian(65536, 8) == [0, 0, 0, 0, 0, 0x01, 0, 0]
  {
    Numbers();
    Bytes(0, 0);
    Bytes(1, 1);
    hide ToByte, ToNat;
    Zeros(5);
    assert BigEndian(1, 6) == BigEndian(0, 5) + [0x01] && BigEndian(256, 7) == BigEndian(1, 6) + [0];
    hide BigEndian;
  }

  lemma {:induction false} Zeros(k: nat)
    ensures BigEndian(0, k) == seq(k, _ => 0)
  {
    Bytes(0, 0);
    if k > 0 { Zeros(k - 1); }
  }

  lemma LongerHeaders()
    ensures LengthBytes(Medium, 0, 256) == [0x7E, 0x01, 0x00]
    ensures LengthBytes(Long, 0, 65536) == [0x7F, 0, 0, 0, 0, 0, 0x01, 0, 0]
  {
    Numbers();
    TwoBytes();
    EightBytes();
    Bytes(126, 0x7E);
    Bytes(127, 0x7F);
    hide ToByte, ToNat, BigEndian;
  }

  lemma UnmaskedEncoded(f: Frame, form: Form, a: byte, length: seq<byte>)
    requires Fits(form, |f.payload|) && f.fin && f.key == [] && ToNat(a) == 128 + f.opcode
    requires LengthBytes(form, 0, |f.payload|) == length
    ensures Encode(f, form) == [a] + length + f.payload
  {
    hide ToNat, ToByte, LengthBytes;
    Bytes(ToNat(a), a);
  }

  /** The frames of 256 bytes and of 64 KiB. */
  lemma LongerWritten(data: seq<byte>, more: seq<byte>)
    requires |data| == 256 && |more| == 65536
    ensures Encode(Frame(true, 2, [], data), MinimalForm(256)) == [0x82, 0x7E, 0x01, 0x00] + data
    ensures Encode(Frame(true, 2, [], more), MinimalForm(65536)) == [0x82, 0x7F, 0, 0, 0, 0, 0, 0x01, 0, 0] + more
  {
    LongerHeaders();
    Numbers();
    hide ToByte, ToNat, LengthBytes, Encode;
    UnmaskedEncoded(Frame(true, 2, [], data), Medium, 0x82, [0x7E, 0x01, 0x00]);
    UnmaskedEncoded(Frame(true, 2, [], more), Long, 0x82, [0x7F, 0, 0, 0, 0, 0, 0x01, 0, 0]);
    assert [0x82 as byte] + [0x7E, 0x01, 0x00] == [0x82, 0x7E, 0x01, 0x00];
    assert [0x82 as byte] + [0x7F, 0, 0, 0, 0, 0, 0x01, 0, 0] == [0x82, 0x7F, 0, 0, 0, 0, 0, 0x01, 0, 0];
  }
}
