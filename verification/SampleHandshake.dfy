/** The sample handshake of section 1.3 of RFC 6455. */
module SampleHandshake {
  import opened Basics
  import opened Sha1Spec
  import opened DigestTrace
  import opened Handshake
  import First = SampleFirstBlock
  import Second = SampleSecondBlock
  import Base64
  import Base64Vectors

  const KEY := "dGhlIHNhbXBs" + "ZSBub25jZQ=="

  // The key and the GUID as bytes, in the five parts that make them up, and the padded message in
  // pieces of sixteen bytes.

  lemma Key0()
    ensures Ascii("dGhlIHNhbXBs") == [0x64, 0x47, 0x68, 0x6C, 0x49, 0x48, 0x4E, 0x68, 0x62, 0x58, 0x42, 0x73]
  {
    AsciiIs("dGhlIHNhbXBs", [0x64, 0x47, 0x68, 0x6C, 0x49, 0x48, 0x4E, 0x68, 0x62, 0x58, 0x42, 0x73]);
  }

  lemma Key1()
    ensures Ascii("ZSBub25jZQ==") == [0x5A, 0x53, 0x42, 0x75, 0x62, 0x32, 0x35, 0x6A, 0x5A, 0x51, 0x3D, 0x3D]
  {
    AsciiIs("ZSBub25jZQ==", [0x5A, 0x53, 0x42, 0x75, 0x62, 0x32, 0x35, 0x6A, 0x5A, 0x51, 0x3D, 0x3D]);
  }

  lemma Guid0()
    ensures Ascii("258EAFA5-E914") == [0x32, 0x35, 0x38, 0x45, 0x41, 0x46, 0x41, 0x35, 0x2D, 0x45, 0x39, 0x31, 0x34]
  {
    AsciiIs("258EAFA5-E914", [0x32, 0x35, 0x38, 0x45, 0x41, 0x46, 0x41, 0x35, 0x2D, 0x45, 0x39, 0x31, 0x34]);
  }

  lemma Guid1()
    ensures Ascii("-47DA-95CA-C5") == [0x2D, 0x34, 0x37, 0x44, 0x41, 0x2D, 0x39, 0x35, 0x43, 0x41, 0x2D, 0x43, 0x35]
  {
    AsciiIs("-47DA-95CA-C5", [0x2D, 0x34, 0x37, 0x44, 0x41, 0x2D, 0x39, 0x35, 0x43, 0x41, 0x2D, 0x43, 0x35]);
  }

  lemma Guid2()
    ensures Ascii("AB0DC85B11") == [0x41, 0x42, 0x30, 0x44, 0x43, 0x38, 0x35, 0x42, 0x31, 0x31]
  {
    AsciiIs("AB0DC85B11", [0x41, 0x42, 0x30, 0x44, 0x43, 0x38, 0x35, 0x42, 0x31, 0x31]);
  }

  /** Texts are compared with bytes number by number. */
  lemma AsciiIs(s: string, bytes: seq<byte>)
    requires |s| == |bytes| && forall i :: 0 <= i < |s| ==> s[i] as nat == ToNat(bytes[i])
    ensures Ascii(s) == bytes
  {
    hide ToByte, ToNat;
    forall i | 0 <= i < |s| ensures Ascii(s)[i] == bytes[i] {
      ByteLimit(bytes[i]);
      ByteOfNat(bytes[i]);
    }
  }

  const M0: seq<byte> :=
    [0x64, 0x47, 0x68, 0x6C, 0x49, 0x48, 0x4E, 0x68, 0x62, 0x58, 0x42, 0x73, 0x5A, 0x53, 0x42, 0x75]

  const M1: seq<byte> :=
    [0x62, 0x32, 0x35, 0x6A, 0x5A, 0x51, 0x3D, 0x3D, 0x32, 0x35, 0x38, 0x45, 0x41, 0x46, 0x41, 0x35]

  const M2: seq<byte> :=
    [0x2D, 0x45, 0x39, 0x31, 0x34, 0x2D, 0x34, 0x37, 0x44, 0x41, 0x2D, 0x39, 0x35, 0x43, 0x41, 0x2D]

  const M3: seq<byte> :=
    [0x43, 0x35, 0x41, 0x42, 0x30, 0x44, 0x43, 0x38, 0x35, 0x42, 0x31, 0x31, 0x80, 0, 0, 0]

  /** The bytes that are hashed. */
  lemma KeyAndGuid()
    ensures Ascii(KEY) + Ascii(GUID) == M0 + M1 + M2 + M3[..12]
  {
    hide Ascii;
    var k0, k1 := "dGhlIHNhbXBs", "ZSBub25jZQ==";
    var g0, g1, g2 := "258EAFA5-E914", "-47DA-95CA-C5", "AB0DC85B11";
    AsciiJoin(k0, k1);
    AsciiJoin(g0 + g1, g2);
    AsciiJoin(g0, g1);
    Key0();
    Key1();
    Guid0();
    Guid1();
    Guid2();
    Parts(Ascii(k0), Ascii(k1), Ascii(g0), Ascii(g1), Ascii(g2));
    hide M0, M1, M2, M3;
  }

  lemma AsciiJoin(s: string, t: string)
    ensures Ascii(s + t) == Ascii(s) + Ascii(t)
  {
  }

  lemma Parts(k0: seq<byte>, k1: seq<byte>, g0: seq<byte>, g1: seq<byte>, g2: seq<byte>)
    requires |k0| == |k1| == 12 && |g0| == |g1| == 13 && |g2| == 10
    requires k0 + k1[..4] == M0 && k1[4..] + g0[..8] == M1 && g0[8..] + g1[..11] == M2 && g1[11..] + g2 == M3[..12]
    ensures k0 + k1 + (g0 + g1 + g2) == M0 + M1 + M2 + M3[..12]
  {
    hide M0, M1, M2, M3;
    assert k1 == k1[..4] + k1[4..] && g0 == g0[..8] + g0[8..] && g1 == g1[..11] + g1[11..];
  }

  lemma PaddedMessage(m: seq<byte>)
    requires m == M0 + M1 + M2 + M3[..12]
    ensures |Pad(m)| == 128
    ensures Pad(m)[..64] == M0 + M1 + M2 + M3
    ensures Pad(m)[64..] == seq(56, _ => 0) + Bytes64(480)
  {
    hide Bytes64;
    assert ZeroBytes(60) == 59 && BitCount(60) == 480;
    assert Pad(m) == m + ([0x80] + seq(59, _ => 0) + Bytes64(480));
  }

  lemma LengthField()
    ensures Bytes64(480) == [0, 0, 0, 0, 0, 0, 1, 0xE0]
  {
    assert Quotient(480, 1) == 1 && Quotient(480, 2) == 0;
    forall i: nat | 2 <= i < 8 ensures Quotient(480, i) == 0 { NothingLeft(i); }
  }

  lemma {:induction false} NothingLeft(i: nat)
    requires i >= 2
    ensures Quotient(480, i) == 0
  {
    if i > 2 { NothingLeft(i - 1); } else { assert Quotient(480, 1) == 1; }
  }

  lemma FourWords(block: seq<byte>, m: seq<byte>, j: nat)
    requires |block| == 64 && |m| == 16 && j < 4 && block[16 * j..16 * j + 16] == m
    ensures BlockWord(block, 4 * j) == BigEndian(m[0], m[1], m[2], m[3])
    ensures BlockWord(block, 4 * j + 1) == BigEndian(m[4], m[5], m[6], m[7])
    ensures BlockWord(block, 4 * j + 2) == BigEndian(m[8], m[9], m[10], m[11])
    ensures BlockWord(block, 4 * j + 3) == BigEndian(m[12], m[13], m[14], m[15])
  {
    hide BigEndian;
    assert forall i :: 0 <= i < 16 ==> block[16 * j + i] == m[i];
  }

  lemma Quarters(block: seq<byte>, a: seq<byte>, b: seq<byte>, c: seq<byte>, d: seq<byte>)
    requires block == a + b + c + d && |a| == |b| == |c| == |d| == 16
    ensures |block| == 64 && block[0..16] == a && block[16..32] == b && block[32..48] == c && block[48..64] == d
  {
  }

  lemma WordsOfM0()
    ensures var m := M0;
            && BigEndian(m[0], m[1], m[2], m[3]) == First.W(0)
            && BigEndian(m[4], m[5], m[6], m[7]) == First.W(1)
            && BigEndian(m[8], m[9], m[10], m[11]) == First.W(2)
            && BigEndian(m[12], m[13], m[14], m[15]) == First.W(3)
  {
  }

  lemma WordsOfM1()
    ensures var m := M1;
            && BigEndian(m[0], m[1], m[2], m[3]) == First.W(4)
            && BigEndian(m[4], m[5], m[6], m[7]) == First.W(5)
            && BigEndian(m[8], m[9], m[10], m[11]) == First.W(6)
            && BigEndian(m[12], m[13], m[14], m[15]) == First.W(7)
  {
  }

  lemma WordsOfM2()
    ensures var m := M2;
            && BigEndian(m[0], m[1], m[2], m[3]) == First.W(8)
            && BigEndian(m[4], m[5], m[6], m[7]) == First.W(9)
            && BigEndian(m[8], m[9], m[10], m[11]) == First.W(10)
            && BigEndian(m[12], m[13], m[14], m[15]) == First.W(11)
  {
  }

  lemma WordsOfM3()
    ensures var m := M3;
            && BigEndian(m[0], m[1], m[2], m[3]) == First.W(12)
            && BigEndian(m[4], m[5], m[6], m[7]) == First.W(13)
            && BigEndian(m[8], m[9], m[10], m[11]) == First.W(14)
            && BigEndian(m[12], m[13], m[14], m[15]) == First.W(15)
  {
  }

  lemma FirstWords(block: seq<byte>)
    requires block == M0 + M1 + M2 + M3
    ensures forall i :: 0 <= i < 16 ==> BlockWord(block, i) == First.W(i)
  {
    hide BigEndian, First.W, BlockWord;
    Quarters(block, M0, M1, M2, M3);
    FourWords(block, M0, 0);
    FourWords(block, M1, 1);
    FourWords(block, M2, 2);
    FourWords(block, M3, 3);
    WordsOfM0();
    WordsOfM1();
    WordsOfM2();
    WordsOfM3();
    forall i | 0 <= i < 16 ensures BlockWord(block, i) == First.W(i) {
      assert i == 0 || i == 1 || i == 2 || i == 3 || i == 4 || i == 5 || i == 6 || i == 7
          || i == 8 || i == 9 || i == 10 || i == 11 || i == 12 || i == 13 || i == 14 || i == 15;
    }
  }

  lemma SecondWords(block: seq<byte>)
    requires block == seq(56, _ => 0) + [0, 0, 0, 0, 0, 0, 1, 0xE0]
    ensures forall i :: 0 <= i < 16 ==> BlockWord(block, i) == Second.W(i)
  {
    assert BigEndian(0, 0, 1, 0xE0) == Second.W(15) && BigEndian(0, 0, 0, 0) == 0;
    hide BigEndian;
    assert block[62] == 1 && block[63] == 0xE0;
    assert forall j :: 0 <= j < 62 ==> block[j] == 0;
    forall i | 0 <= i < 16 ensures BlockWord(block, i) == Second.W(i) {
      if i < 15 { ZeroWord(i); }
    }
  }

  lemma ZeroWord(i: nat)
    requires i < 15
    ensures Second.W(i) == 0
  {
  }

  lemma StartOfFirst()
    ensures Variables(First.V, 0) == INITIAL
  {
  }

  lemma StartOfSecond()
    ensures Variables(Second.V, 0) == Plus(INITIAL, Variables(First.V, 80))
  {
    assert Variables(Second.V, 0) == Hash(0x5BCF7727, 0x7327416A, 0xBE7BFBF9, 0x5A781878, 0x5E46A4E2);
    assert Plus(INITIAL, Variables(First.V, 80)) == Hash(0x5BCF7727, 0x7327416A, 0xBE7BFBF9, 0x5A781878, 0x5E46A4E2);
  }

  function HashOfSample(): seq<byte> {
    [0xB3, 0x7A, 0x4F, 0x2C, 0xC0, 0x62, 0x4F, 0x16, 0x90, 0xF6, 0x46, 0x06]
    + [0xCF, 0x38, 0x59, 0x45, 0xB2, 0xBE, 0xC4, 0xEA]
  }

  lemma Finish()
    ensures HashBytes(Plus(Variables(Second.V, 0), Variables(Second.V, 80))) == HashOfSample()
  {
    assert Plus(Variables(Second.V, 0), Variables(Second.V, 80))
        == Hash(0xB37A4F2C, 0xC0624F16, 0x90F64606, 0xCF385945, 0xB2BEC4EA);
    hide Plus, Second.V;
  }

  lemma FirstBlock(block: seq<byte>)
    requires block == M0 + M1 + M2 + M3
    ensures Compress(INITIAL, block) == Plus(INITIAL, Variables(First.V, 80))
  {
    hide Rounds, Plus, First.V, First.W, Traced, BlockWord;
    Quarters(block, M0, M1, M2, M3);
    FirstWords(block);
    First.Holds();
    StartOfFirst();
    RoundsAre(First.V, First.W, block, 80);
  }

  lemma SecondBlock(block: seq<byte>)
    requires block == seq(56, _ => 0) + [0, 0, 0, 0, 0, 0, 1, 0xE0]
    ensures Compress(Variables(Second.V, 0), block) == Plus(Variables(Second.V, 0), Variables(Second.V, 80))
  {
    hide Rounds, Plus, Second.V, Second.W, Traced, BlockWord;
    SecondWords(block);
    Second.Holds();
    RoundsAre(Second.V, Second.W, block, 80);
  }

  /** The SHA-1 hash that the standard gives for its sample key. */
  lemma DigestOfSample()
    ensures Digest(Ascii(KEY) + Ascii(GUID)) == HashOfSample()
  {
    hide Rounds, Compress, HashBytes, Plus, Pad, Bytes64, Variables, Ascii, HashOfSample, M0, M1, M2, M3;
    KeyAndGuid();
    var m := Ascii(KEY) + Ascii(GUID);
    PaddedMessage(m);
    LengthField();
    var p := Pad(m);
    assert HashBlocks(p, 0) == INITIAL;
    assert p[0..64] == p[..64] && HashBlocks(p, 1) == Compress(INITIAL, p[..64]);
    FirstBlock(p[..64]);
    StartOfSecond();
    assert p[64..128] == p[64..] && HashBlocks(p, 2) == Compress(Variables(Second.V, 0), p[64..]);
    SecondBlock(p[64..]);
    Finish();
  }

  /** The Sec-WebSocket-Accept value that the standard gives for its sample key. */
  lemma AcceptOfSample()
    ensures AcceptValue(Ascii(KEY)) == "s3pPLMBiTxaQ" + "9kYGzzhZRbK+xOo="
  {
    DigestOfSample();
    hide Digest, Base64.Encode, Ascii;
    Base64Vectors.SampleAccept();
  }
}
