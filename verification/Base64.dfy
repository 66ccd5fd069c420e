/** The Base64 encoder of the WebSocket handshake, against section 4 of RFC 4648. */
module Base64 {
  import opened Basics

  type sextet = n: nat | n < 64

  /** Table 1 of RFC 4648, which is also the encoder's table. */
  const TABLE := "ABCDEFGHIJKLM" + "NOPQRSTUVWXYZ" + "abcdefghijklm" + "nopqrstuvwxyz" + "0123456789" + "+/"

  function Symbol(x: sextet): char { TABLE[x] }

  /** The value of a symbol, by the ranges of the alphabet. */
  function SymbolValue(c: char): Option<sextet> {
    if 'A' <= c <= 'Z' then Some(c as int - 'A' as int)
    else if 'a' <= c <= 'z' then Some(c as int - 'a' as int + 26)
    else if '0' <= c <= '9' then Some(c as int - '0' as int + 52)
    else if c == '+' then Some(62)
    else if c == '/' then Some(63)
    else None
  }

  lemma UpperCase(x: sextet)
    requires x < 26
    ensures Symbol(x) as int == 'A' as int + x
  {
  }

  lemma LowerCase(x: sextet)
    requires 26 <= x < 52
    ensures Symbol(x) as int == 'a' as int + (x - 26)
  {
  }

  lemma Others(x: sextet)
    requires 52 <= x
    ensures if x < 62 then Symbol(x) as int == '0' as int + (x - 52) else Symbol(x) == if x == 62 then '+' else '/'
  {
  }

  lemma SymbolRoundTrip(x: sextet)
    ensures SymbolValue(Symbol(x)) == Some(x) && Symbol(x) != '='
  {
    hide Symbol;
    if x < 26 { UpperCase(x); } else if x < 52 { LowerCase(x); } else { Others(x); }
  }

  // -------- section 4: groups of three octets and four symbols --------

  /** The 24-bit number that three octets form. */
  function Triple(a: nat, b: nat, c: nat): (t: nat)
    requires a < 256 && b < 256 && c < 256
    ensures t < 0x100_0000
  {
    0x1_0000 * a + 0x100 * b + c
  }

  /** Its four 6-bit digits. */
  function Sextets(t: nat): (r: seq<sextet>)
    requires t < 0x100_0000
    ensures |r| == 4
  {
    [t / 0x4_0000, t / 0x1000 % 64, t / 0x40 % 64, t % 64]
  }

  /** Four symbols for n octets; missing octets count as zero and their symbols become padding. */
  function Symbols(a: nat, b: nat, c: nat, n: nat): (r: string)
    requires a < 256 && b < 256 && c < 256
    ensures |r| == 4
  {
    var x := Sextets(Triple(a, b, c));
    [Symbol(x[0]), Symbol(x[1]), if n > 1 then Symbol(x[2]) else '=', if n > 2 then Symbol(x[3]) else '=']
  }

  function EncodeGroup(s: seq<byte>): (r: string)
    requires 1 <= |s| <= 3
    ensures |r| == 4
  {
    Symbols(ToNat(s[0]), if |s| > 1 then ToNat(s[1]) else 0, if |s| > 2 then ToNat(s[2]) else 0, |s|)
  }

  function Encode(s: seq<byte>): (r: string)
    ensures |r| == 4 * ((|s| + 2) / 3)
  {
    hide EncodeGroup;
    if s == [] then "" else
    var k := if |s| < 3 then |s| else 3;
    assert (|s| + 2) / 3 == 1 + (|s| - k + 2) / 3;
    EncodeGroup(s[..k]) + Encode(s[k..])
  }

  function Join(x0: sextet, x1: sextet, x2: sextet, x3: sextet): nat {
    0x4_0000 * (x0 as nat) + 0x1000 * (x1 as nat) + 0x40 * (x2 as nat) + (x3 as nat)
  }

  function Octets(t: nat): (r: seq<byte>)
    requires t < 0x100_0000
    ensures |r| == 3
  {
    [ToByte(t / 0x1_0000), ToByte(t / 0x100 % 0x100), ToByte(t % 0x100)]
  }

  /** Padding is accepted in the last group only. */
  function Decode(t: string): Option<seq<byte>> {
    if t == "" then Some([])
    else if |t| < 4 then None else
    match (SymbolValue(t[0]), SymbolValue(t[1]))
    case (Some(x0), Some(x1)) =>
      if t[2..] == "==" then Some(Octets(Join(x0, x1, 0, 0))[..1]) else
      (match SymbolValue(t[2])
       case None => None
       case Some(x2) =>
         if t[3..] == "=" then Some(Octets(Join(x0, x1, x2, 0))[..2]) else
         match (SymbolValue(t[3]), Decode(t[4..]))
         case (Some(x3), Some(rest)) => Some(Octets(Join(x0, x1, x2, x3)) + rest)
         case _ => None)
    case _ => None
  }

  lemma FirstSextet(a: nat, b: nat, c: nat)
    requires a < 256 && b < 256 && c < 256
    ensures Triple(a, b, c) / 0x4_0000 == a / 4
  {
    DivMod(Triple(a, b, c), 0x4_0000, a / 4, 0x1_0000 * (a % 4) + 0x100 * b + c);
  }

  lemma SecondSextet(a: nat, b: nat, c: nat)
    requires a < 256 && b < 256 && c < 256
    ensures Triple(a, b, c) / 0x1000 % 64 == a % 4 * 16 + b / 16
  {
    DivMod(Triple(a, b, c), 0x1000, 16 * a + b / 16, 0x100 * (b % 16) + c);
    DivMod(16 * a + b / 16, 64, a / 4, a % 4 * 16 + b / 16);
  }

  lemma ThirdSextet(a: nat, b: nat, c: nat)
    requires a < 256 && b < 256 && c < 256
    ensures Triple(a, b, c) / 0x40 % 64 == b % 16 * 4 + c / 64
  {
    DivMod(Triple(a, b, c), 0x40, 1024 * a + 4 * b + c / 64, c % 64);
    DivMod(1024 * a + 4 * b + c / 64, 64, 16 * a + b / 16, b % 16 * 4 + c / 64);
  }

  lemma FourthSextet(a: nat, b: nat, c: nat)
    requires a < 256 && b < 256 && c < 256
    ensures Triple(a, b, c) % 64 == c % 64
  {
    DivMod(Triple(a, b, c), 64, 1024 * a + 4 * b + c / 64, c % 64);
  }

  /** Which bits of which octet each sextet takes. */
  lemma SextetsOfTriple(a: nat, b: nat, c: nat)
    requires a < 256 && b < 256 && c < 256
    ensures Sextets(Triple(a, b, c)) == [a / 4, a % 4 * 16 + b / 16, b % 16 * 4 + c / 64, c % 64]
  {
    FirstSextet(a, b, c);
    SecondSextet(a, b, c);
    ThirdSextet(a, b, c);
    FourthSextet(a, b, c);
  }

  lemma JoinDigits(qa: nat, ra: nat, qb: nat, rb: nat, qc: nat, rc: nat)
    ensures 0x4_0000 * qa + 0x1000 * (ra * 16 + qb) + 0x40 * (rb * 4 + qc) + rc
         == 0x1_0000 * (4 * qa + ra) + 0x100 * (16 * qb + rb) + (64 * qc + rc)
  {
  }

  lemma JoinSextets(a: nat, b: nat, c: nat)
    requires a < 256 && b < 256 && c < 256
    ensures var x := Sextets(Triple(a, b, c)); Join(x[0], x[1], x[2], x[3]) == Triple(a, b, c)
  {
    SextetsOfTriple(a, b, c);
    JoinDigits(a / 4, a % 4, b / 16, b % 16, c / 64, c % 64);
    assert a == 4 * (a / 4) + a % 4 && b == 16 * (b / 16) + b % 16 && c == 64 * (c / 64) + c % 64;
    hide Sextets;
  }

  lemma ZeroSextets(a: nat, b: nat, c: nat)
    requires a < 256 && b < 256 && c < 256
    ensures var x := Sextets(Triple(a, b, c)); (c == 0 ==> x[3] == 0) && (b == c == 0 ==> x[2] == 0)
  {
    SextetsOfTriple(a, b, c);
    hide Sextets, Triple;
    assert c == 0 ==> c / 64 == 0 && c % 64 == 0;
  }

  lemma OctetsOfTriple(a: nat, b: nat, c: nat)
    requires a < 256 && b < 256 && c < 256
    ensures Octets(Triple(a, b, c)) == [ToByte(a), ToByte(b), ToByte(c)]
  {
    hide ToByte;
    DivMod(Triple(a, b, c), 0x1_0000, a, 0x100 * b + c);
    DivMod(Triple(a, b, c), 0x100, 0x100 * a + b, c);
    DivMod(0x100 * a + b, 0x100, a, b);
  }

  lemma DecodeGroup(s: seq<byte>, rest: string)
    requires 1 <= |s| <= 3 && (|s| < 3 ==> rest == "") && Decode(rest).Some?
    ensures Decode(EncodeGroup(s) + rest) == Some(s + Decode(rest).value)
  {
    hide ToByte, ToNat, Triple, Sextets, Octets, Join, Symbol, SymbolValue;
    var a := ToNat(s[0]);
    var b := if |s| > 1 then ToNat(s[1]) else 0;
    var c := if |s| > 2 then ToNat(s[2]) else 0;
    var x := Sextets(Triple(a, b, c));
    JoinSextets(a, b, c);
    ZeroSextets(a, b, c);
    OctetsOfTriple(a, b, c);
    SymbolRoundTrip(x[0]);
    SymbolRoundTrip(x[1]);
    SymbolRoundTrip(x[2]);
    SymbolRoundTrip(x[3]);
    ByteOfNat(s[0]);
    if |s| > 1 { ByteOfNat(s[1]); }
    if |s| > 2 { ByteOfNat(s[2]); }
    var t := EncodeGroup(s) + rest;
    assert t[0] == Symbol(x[0]) && t[1] == Symbol(x[1]) && t[4..] == rest;
    assert t[2] == t[2..][0] && t[3] == t[3..][0] == t[2..][1];
    assert s + [] == s;
    if |s| == 1 {
      assert t[2..] == "==" && s == Octets(Join(x[0], x[1], 0, 0))[..1];
      assert Decode(t) == Some(s);
    } else if |s| == 2 {
      assert t[2..] != "==" && t[3..] == "=" && s == Octets(Join(x[0], x[1], x[2], 0))[..2];
      assert Decode(t) == Some(s);
    } else {
      assert t[2..] != "==" && t[3..] != "=" && s == Octets(Join(x[0], x[1], x[2], x[3]));
      assert Decode(t) == Some(s + Decode(rest).value);
    }
  }

  lemma {:induction false} DecodeEncode(s: seq<byte>)
    ensures Decode(Encode(s)) == Some(s)
  {
    hide EncodeGroup, Decode;
    if s == [] {
      DecodeNothing();
    } else {
      var k := if |s| < 3 then |s| else 3;
      DecodeEncode(s[k..]);
      DecodeGroup(s[..k], Encode(s[k..]));
      assert s == s[..k] + s[k..];
    }
  }

  lemma DecodeNothing()
    ensures Decode("") == Some([])
  {
  }

  lemma GroupPadding(s: seq<byte>, i: nat)
    requires 1 <= |s| <= 3 && i < 4
    ensures EncodeGroup(s)[i] == '=' <==> i > |s|
  {
    hide ToNat, Triple, Sextets, Symbol;
    var b := if |s| > 1 then ToNat(s[1]) else 0;
    var c := if |s| > 2 then ToNat(s[2]) else 0;
    SymbolRoundTrip(Sextets(Triple(ToNat(s[0]), b, c))[i]);
  }

  /** The octets missing from the last group. */
  function Missing(n: nat): nat { (3 - n % 3) % 3 }

  lemma MissingBehind(n: nat)
    ensures n >= 3 ==> Missing(n - 3) == Missing(n)
    ensures 1 <= n <= 3 ==> Missing(n) == 3 - n
  {
  }

  lemma OneGroup(s: seq<byte>)
    requires s != []
    ensures var k := if |s| < 3 then |s| else 3;
            && Encode(s) == EncodeGroup(s[..k]) + Encode(s[k..])
            && (|s| > 3 ==> 4 <= |Encode(s[k..])|) && (|s| <= 3 ==> Encode(s[k..]) == "")
  {
    hide EncodeGroup;
  }

  /** Padding stands at the end only, one sign for each octet missing from the last group. */
  lemma {:induction false} PaddingAtEnd(s: seq<byte>, i: nat)
    requires i < |Encode(s)|
    ensures Encode(s)[i] == '=' <==> i >= |Encode(s)| - Missing(|s|)
  {
    hide EncodeGroup, Encode, Missing;
    EmptyText(s);
    OneGroup(s);
    var k := if |s| < 3 then |s| else 3;
    MissingBehind(|s|);
    MissingIsFew(|s|);
    if i < 4 {
      GroupPadding(s[..k], i);
    } else {
      PaddingAtEnd(s[k..], i - 4);
    }
  }

  lemma EmptyText(s: seq<byte>)
    ensures Encode(s) == "" <==> s == []
  {
    hide EncodeGroup;
  }

  lemma MissingIsFew(n: nat)
    ensures Missing(n) < 3
  {
  }

  // -------- the encoder --------

  type word = bv32

  /** Three octets put together as the encoder does it. */
  function TripleWord(a: byte, b: byte, c: byte): word {
    ((a as word) << 16) | ((b as word) << 8) | (c as word)
  }

  function SixBits(t: word, n: nat): byte
    requires n <= 18
  {
    ((t >> n) & 0x3F) as byte
  }

  lemma SixBitsOfTriple(a: byte, b: byte, c: byte)
    ensures SixBits(TripleWord(a, b, c), 18) == a >> 2
    ensures SixBits(TripleWord(a, b, c), 12) == ((a & 3) << 4) + (b >> 4)
    ensures SixBits(TripleWord(a, b, c), 6) == ((b & 15) << 2) + (c >> 6)
    ensures SixBits(TripleWord(a, b, c), 0) == c & 63
  {
    FirstSixBits(a, b, c);
    SecondSixBits(a, b, c);
    ThirdSixBits(a, b, c);
    FourthSixBits(a, b, c);
  }

  lemma FirstSixBits(a: byte, b: byte, c: byte)
    ensures SixBits(TripleWord(a, b, c), 18) == a >> 2
  {
    assert TripleWord(a, b, c) >> 18 == (a >> 2) as word;
  }

  lemma SecondSixBits(a: byte, b: byte, c: byte)
    ensures SixBits(TripleWord(a, b, c), 12) == ((a & 3) << 4) + (b >> 4)
  {
  }

  lemma ThirdSixBits(a: byte, b: byte, c: byte)
    ensures SixBits(TripleWord(a, b, c), 6) == ((b & 15) << 2) + (c >> 6)
  {
  }

  lemma FourthSixBits(a: byte, b: byte, c: byte)
    ensures SixBits(TripleWord(a, b, c), 0) == c & 63
  {
  }

  lemma HighBits(b: byte)
    ensures ToNat(b >> 2) == ToNat(b) / 4 && ToNat(b >> 4) == ToNat(b) / 16
  {
  }

  lemma TopBits(b: byte)
    ensures ToNat(b >> 6) == ToNat(b) / 64
  {
  }

  lemma MaskTwo(b: byte)
    ensures ToNat(b & 3) == ToNat(b) % 4
  {
  }

  lemma MaskFour(b: byte)
    ensures ToNat(b & 15) == ToNat(b) % 16
  {
  }

  lemma ShiftByFour(b: byte)
    ensures ToNat((b & 3) << 4) == ToNat(b & 3) * 16
  {
  }

  lemma ShiftByTwo(b: byte)
    ensures ToNat((b & 15) << 2) == ToNat(b & 15) * 4
  {
  }

  lemma LowTwoBits(b: byte)
    ensures ToNat((b & 3) << 4) == ToNat(b) % 4 * 16
  {
    hide ToNat;
    MaskTwo(b);
    ShiftByFour(b);
  }

  lemma LowFourBits(b: byte)
    ensures ToNat((b & 15) << 2) == ToNat(b) % 16 * 4
  {
    hide ToNat;
    MaskFour(b);
    ShiftByTwo(b);
  }

  lemma LowSixBits(b: byte)
    ensures ToNat(b & 63) == ToNat(b) % 64
  {
  }

  lemma SecondDigit(a: byte, b: byte)
    ensures ToNat(((a & 3) << 4) + (b >> 4)) == ToNat(a) % 4 * 16 + ToNat(b) / 16
  {
    hide ToNat;
    ByteLimit(b);
    HighBits(b);
    LowTwoBits(a);
    SumOfBytes((a & 3) << 4, b >> 4);
  }

  lemma ThirdDigit(b: byte, c: byte)
    ensures ToNat(((b & 15) << 2) + (c >> 6)) == ToNat(b) % 16 * 4 + ToNat(c) / 64
  {
    hide ToNat;
    ByteLimit(c);
    TopBits(c);
    LowFourBits(b);
    SumOfBytes((b & 15) << 2, c >> 6);
  }

  lemma SixBitsAreFew(t: word, n: nat)
    requires n <= 18
    ensures ToNat(SixBits(t, n)) < 64
  {
    hide ToNat;
    var b := SixBits(t, n);
    assert b == b & 63;
    LowSixBits(b);
  }

  /** An index into the table, computed by a shift and a mask. */
  function Index(t: word, n: nat): sextet
    requires n <= 18
  {
    hide *;
    SixBitsAreFew(t, n);
    ToNat(SixBits(t, n))
  }

  /** The shifts and masks of the encoder select the four 6-bit digits. */
  lemma IndicesAreSextets(a: byte, b: byte, c: byte)
    ensures var t := TripleWord(a, b, c);
            [Index(t, 18), Index(t, 12), Index(t, 6), Index(t, 0)] == Sextets(Triple(ToNat(a), ToNat(b), ToNat(c)))
  {
    SextetsOfTriple(ToNat(a), ToNat(b), ToNat(c));
    hide Sextets, Triple, SixBits, TripleWord, ToNat;
    SixBitsOfTriple(a, b, c);
    HighBits(a);
    SecondDigit(a, b);
    ThirdDigit(b, c);
    LowSixBits(c);
  }

  /** One round of the loop of base64_encode. */
  method PutGroup(input: seq<byte>, i: nat, rem: nat, out: array<char>, j: nat)
    requires 0 < rem && i + rem <= |input| && j + 4 <= out.Length
    modifies out
    ensures out[..j + 4] == old(out[..j]) + EncodeGroup(input[i..i + (if rem < 3 then rem else 3)])
    ensures out[j + 4..] == old(out[j + 4..])
  {
    hide Triple, Sextets, Symbol, ToNat, TripleWord, Index, EncodeGroup;
    var a := input[i];
    var b := if rem > 1 then input[i + 1] else 0;
    var c := if rem > 2 then input[i + 2] else 0;
    var t := TripleWord(a, b, c);
    IndicesAreSextets(a, b, c);
    ghost var x := Sextets(Triple(ToNat(a), ToNat(b), ToNat(c)));
    assert x[0] == Index(t, 18) && x[1] == Index(t, 12) && x[2] == Index(t, 6) && x[3] == Index(t, 0);
    out[j], out[j + 1] := Symbol(Index(t, 18)), Symbol(Index(t, 12));
    out[j + 2] := if rem > 1 then Symbol(Index(t, 6)) else '=';
    out[j + 3] := if rem > 2 then Symbol(Index(t, 0)) else '=';
    assert out[j..j + 4] == Symbols(ToNat(a), ToNat(b), ToNat(c), rem);
    NulOctets(rem, b, c);
    GroupSymbols(input[i..i + rem], rem, ToNat(a), ToNat(b), ToNat(c));
    assert input[i..i + rem][..(if rem < 3 then rem else 3)] == input[i..i + (if rem < 3 then rem else 3)];
  }

  lemma NulOctets(rem: nat, b: byte, c: byte)
    ensures (rem <= 1 && b == 0 ==> ToNat(b) == 0) && (rem <= 2 && c == 0 ==> ToNat(c) == 0)
  {
  }

  lemma GroupSymbols(s: seq<byte>, rem: nat, a: nat, b: nat, c: nat)
    requires 0 < rem == |s| && a == ToNat(s[0])
    requires b == (if rem > 1 then ToNat(s[1]) else 0) && c == (if rem > 2 then ToNat(s[2]) else 0)
    ensures EncodeGroup(s[..if rem < 3 then rem else 3]) == Symbols(a, b, c, rem)
  {
    hide Triple, Sextets, Symbol, ToNat;
  }

  /** base64_encode: -1 when the capacity is too small, else the number of symbols, which a NUL follows. */
  method EncodeInto(input: seq<byte>, out: array<char>) returns (r: int)
    modifies out
    ensures r == -1 <==> out.Length < 4 * ((|input| + 2) / 3) + 1
    ensures r == -1 ==> out[..] == old(out[..])
    ensures r != -1 ==> r == |Encode(input)| < out.Length && out[..r] == Encode(input) && out[r] == '\0'
  {
    hide EncodeGroup, Encode;
    ghost var whole := Encode(input);
    var olen := 4 * ((|input| + 2) / 3);
    EncodeLength(input);
    if out.Length < olen + 1 { return -1; }
    var i, j := 0, 0;
    assert input[0..] == input;
    while i < |input|
      invariant i <= |input| && j <= |whole| == olen && out[..j] == whole[..j] && whole[j..] == Encode(input[i..])
    {
      var rem := |input| - i;
      var k := if rem < 3 then rem else 3;
      EncodeStep(input[i..], input[i..i + k], input[i + k..]);
      Advance(whole, j, EncodeGroup(input[i..i + k]), Encode(input[i + k..]));
      PutGroup(input, i, rem, out, j);
      i, j := i + k, j + 4;
    }
    EncodeLength(input[i..]);
    out[j] := '\0';
    r := j;
  }

  lemma EncodeLength(s: seq<byte>)
    ensures |Encode(s)| == 4 * ((|s| + 2) / 3)
  {
  }

  lemma Advance(whole: string, j: nat, group: string, rest: string)
    requires j <= |whole| && whole[j..] == group + rest
    ensures j + |group| <= |whole| && whole[..j + |group|] == whole[..j] + group && whole[j + |group|..] == rest
  {
    assert whole == whole[..j] + (group + rest) == (whole[..j] + group) + rest;
  }

  lemma EncodeStep(s: seq<byte>, group: seq<byte>, rest: seq<byte>)
    requires s == group + rest && 1 <= |group| <= 3 && (|group| < 3 ==> rest == [])
    ensures Encode(s) == EncodeGroup(group) + Encode(rest)
  {
    hide EncodeGroup;
    assert s[..|group|] == group && s[|group|..] == rest;
  }
}
