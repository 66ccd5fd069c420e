/** SHA-1 as FIPS 180-4 defines it: the functions of section 4.1.1, the constants of
    section 4.2.1, the padding of section 5.1.1 and the computation of section 6.1.2. */
module Sha1Spec {
  import opened Basics

  type word = bv32

  /** The five working variables, and the five words of an intermediate hash value. */
  datatype Hash = Hash(a: word, b: word, c: word, d: word, e: word)

  function FromWords(s: seq<word>): Hash
    requires |s| == 5
  {
    Hash(s[0], s[1], s[2], s[3], s[4])
  }

  const INITIAL := Hash(0x67452301, 0xEFCDAB89, 0x98BADCFE, 0x10325476, 0xC3D2E1F0)

  /** Section 3.2, operation 5. */
  function Rotl(x: word, n: nat): word
    requires 0 < n < 32
  {
    (x << n) | (x >> (32 - n))
  }

  /** The three rotations of the computation: the top n bits of x come out at the bottom, and the others above them. */
  lemma RotlOnNumbers(x: word)
    ensures Rotl(x, 1) % 2 == x / 0x8000_0000 && Rotl(x, 1) / 2 == x % 0x8000_0000
    ensures Rotl(x, 5) % 0x20 == x / 0x800_0000 && Rotl(x, 5) / 0x20 == x % 0x800_0000
    ensures Rotl(x, 30) % 0x4000_0000 == x / 4 && Rotl(x, 30) / 0x4000_0000 == x % 4
  {
    hide Rotl;
    RotlOnce(x);
    RotlFive(x);
    RotlThirty(x);
  }

  lemma RotlOnce(x: word)
    ensures Rotl(x, 1) % 2 == x / 0x8000_0000 && Rotl(x, 1) / 2 == x % 0x8000_0000
  {
  }

  lemma RotlFive(x: word)
    ensures Rotl(x, 5) % 0x20 == x / 0x800_0000 && Rotl(x, 5) / 0x20 == x % 0x800_0000
  {
  }

  lemma RotlThirty(x: word)
    ensures Rotl(x, 30) % 0x4000_0000 == x / 4 && Rotl(x, 30) / 0x4000_0000 == x % 4
  {
  }

  function Ch(x: word, y: word, z: word): word { (x & y) ^ (!x & z) }

  function Parity(x: word, y: word, z: word): word { x ^ y ^ z }

  function Maj(x: word, y: word, z: word): word { (x & y) ^ (x & z) ^ (y & z) }

  function F(t: nat, x: word, y: word, z: word): word {
    if t < 20 then Ch(x, y, z) else if 40 <= t < 60 then Maj(x, y, z) else Parity(x, y, z)
  }

  function K(t: nat): word {
    if t < 20 then 0x5A827999 else if t < 40 then 0x6ED9EBA1 else if t < 60 then 0x8F1BBCDC else 0xCA62C1D6
  }

  /** The word whose big-endian representation is the four given bytes. */
  function BigEndian(b0: byte, b1: byte, b2: byte, b3: byte): word {
    0x100_0000 * (b0 as word) + 0x1_0000 * (b1 as word) + 0x100 * (b2 as word) + (b3 as word)
  }

  function Mix(x: word, y: word, z: word, u: word): word { Rotl(x ^ y ^ z ^ u, 1) }

  /** W(t), the message schedule of step 1 of section 6.1.2. */
  function Schedule(block: seq<byte>, t: nat): word
    requires |block| == 64
    decreases t
  {
    if t < 16 then BigEndian(block[4 * t], block[4 * t + 1], block[4 * t + 2], block[4 * t + 3])
    else Mix(Schedule(block, t - 3), Schedule(block, t - 8), Schedule(block, t - 14), Schedule(block, t - 16))
  }

  /** The sum T of step 3 of section 6.1.2, from its five summands. */
  function Sum(r: word, f: word, e: word, k: word, w: word): word { r + f + e + k + w }

  /** One iteration of step 3 of section 6.1.2, given W(t). */
  function Round(v: Hash, t: nat, w: word): Hash {
    Hash(Sum(Rotl(v.a, 5), F(t, v.b, v.c, v.d), v.e, K(t), w), v.a, Rotl(v.b, 30), v.c, v.d)
  }

  /** The working variables after the first t iterations. */
  function Rounds(h: Hash, block: seq<byte>, t: nat): Hash
    requires |block| == 64
  {
    if t == 0 then h else Round(Rounds(h, block, t - 1), t - 1, Schedule(block, t - 1))
  }

  /** Step 4 of section 6.1.2. */
  function Plus(h: Hash, v: Hash): Hash {
    Hash(h.a + v.a, h.b + v.b, h.c + v.c, h.d + v.d, h.e + v.e)
  }

  function Compress(h: Hash, block: seq<byte>): Hash
    requires |block| == 64
  {
    Plus(h, Rounds(h, block, 80))
  }

  /** The hash value after the first k blocks of m. */
  function HashBlocks(m: seq<byte>, k: nat): Hash
    requires 64 * k <= |m|
  {
    if k == 0 then INITIAL else Compress(HashBlocks(m, k - 1), m[64 * k - 64..64 * k])
  }

  lemma {:induction false} HashBlocksPrefix(m: seq<byte>, m': seq<byte>, k: nat)
    requires 64 * k <= |m| && m <= m'
    ensures HashBlocks(m, k) == HashBlocks(m', k)
  {
    hide Compress;
    if k > 0 {
      HashBlocksPrefix(m, m', k - 1);
      assert m[64 * k - 64..64 * k] == m'[64 * k - 64..64 * k];
    }
  }

  const TWO_64 := 0x1_0000_0000_0000_0000

  /** The length in bits of n bytes, as 64 bits hold it. */
  function BitCount(n: nat): nat { (8 * n) % TWO_64 }

  /** Below 2^64 bits nothing is lost, and above the count starts again. */
  lemma BitCountWraps(n: nat)
    ensures n < 0x2000_0000_0000_0000 ==> BitCount(n) == 8 * n
    ensures BitCount(n + 0x2000_0000_0000_0000) == BitCount(n)
  {
  }

  function LowByte(n: nat): byte { (n % 256) as byte }

  /** n without its i least significant digits in base 256. */
  function Quotient(n: nat, i: nat): nat {
    if i == 0 then n else Quotient(n, i - 1) / 256
  }

  /** Digit i of n in base 256, counted from the least significant. */
  function Digit(n: nat, i: nat): byte { LowByte(Quotient(n, i)) }

  /** A 64-bit number as eight bytes, most significant first. */
  function Bytes64(n: nat): (r: seq<byte>)
    ensures |r| == 8
  {
    [Digit(n, 7), Digit(n, 6), Digit(n, 5), Digit(n, 4), Digit(n, 3), Digit(n, 2), Digit(n, 1), Digit(n, 0)]
  }

  /** The number of all-zero bytes that padding inserts. */
  function ZeroBytes(n: nat): (z: nat)
    ensures z < 64
  {
    (55 - n) % 64
  }

  function Padding(n: nat): (r: seq<byte>)
    ensures |r| == ZeroBytes(n) + 9
  {
    [0x80] + seq(ZeroBytes(n), _ => 0) + Bytes64(BitCount(n))
  }

  /** Section 5.1.1. The standard defines it below 2^64 bits, where the remainder changes nothing. */
  function Pad(m: seq<byte>): (p: seq<byte>)
    ensures |p| % 64 == 0 && m <= p
  {
    assert (|m| + (ZeroBytes(|m|) + 9)) % 64 == 0;
    m + Padding(|m|)
  }

  /** Section 5.1.1 in bits: the bits after the message and before the length are a one and then the
      least number k of zeros with l + 1 + k = 448 mod 512, where l is the length in bits. */
  lemma PaddingIsMinimal(n: nat, k: nat)
    ensures (8 * n + 1 + (7 + 8 * ZeroBytes(n))) % 512 == 448
    ensures (8 * n + 1 + k) % 512 == 448 ==> 7 + 8 * ZeroBytes(n) <= k
  {
    var z := ZeroBytes(n);
    var q := ZeroBytesFill(n);
    DivMod(8 * n + 8 + 8 * z, 512, q, 448);
    if (8 * n + 1 + k) % 512 == 448 {
      var r := (8 * n + 1 + k) / 512;
      assert 7 + 8 * z - k == 512 * (q - r);
    }
  }

  lemma ZeroBytesFill(n: nat) returns (q: nat)
    ensures n + ZeroBytes(n) == 64 * q + 55
  {
    var d: int := (55 - n) / 64;
    assert 55 - n == 64 * d + ZeroBytes(n);
    q := -d;
  }

  function WordBytes(w: word): (r: seq<byte>)
    ensures |r| == 4
  {
    [(w / 0x100_0000) as byte, ((w / 0x1_0000) % 0x100) as byte, ((w / 0x100) % 0x100) as byte, (w % 0x100) as byte]
  }

  function HashBytes(h: Hash): (r: seq<byte>)
    ensures |r| == 20
  {
    WordBytes(h.a) + WordBytes(h.b) + WordBytes(h.c) + WordBytes(h.d) + WordBytes(h.e)
  }

  function Digest(m: seq<byte>): (r: seq<byte>)
    ensures |r| == 20
  {
    HashBytes(HashBlocks(Pad(m), |Pad(m)| / 64))
  }
}
