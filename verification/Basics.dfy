/** Types that several modules share. */
module Basics {
  type byte = bv8

  datatype Option<+T> = None | Some(value: T)

  function Min(a: int, b: int): int { if a <= b then a else b }

  function ToByte(n: nat): byte
    requires n < 256
  {
    n as byte
  }

  function ToNat(b: byte): (n: nat)
    ensures n < 256
  {
    b as nat
  }

  lemma ByteLimit(b: byte)
    ensures ToNat(b) < 256
  {
  }

  lemma ByteOfNat(b: byte)
    ensures ToByte(ToNat(b)) == b
  {
  }

  lemma NextByte(b: byte)
    requires ToNat(b) < 255
    ensures ToNat(b + 1) == ToNat(b) + 1
  {
  }

  lemma {:induction false} ByteFor(n: nat) returns (b: byte)
    requires n < 256
    ensures ToNat(b) == n
  {
    if n == 0 {
      b := 0;
    } else {
      b := ByteFor(n - 1);
      NextByte(b);
      b := b + 1;
    }
  }

  lemma ByteRoundTrip(n: nat)
    requires n < 256
    ensures ToNat(ToByte(n)) == n
  {
    hide ToByte, ToNat;
    var b := ByteFor(n);
    ByteOfNat(b);
  }

  lemma PreviousByte(b: byte)
    requires ToNat(b) > 0
    ensures ToNat(b - 1) == ToNat(b) - 1
  {
    var c := b - 1;
    assert c != 255;
    NextByte(c);
  }

  lemma NoByte(a: byte, b: byte)
    requires ToNat(b) == 0
    ensures b == 0 && a + b == a
  {
  }

  lemma OneMore(a: byte, b: byte)
    requires ToNat(a) + ToNat(b) < 256
    requires ToNat(b - 1) == ToNat(b) - 1 && ToNat(a + (b - 1)) == ToNat(a) + ToNat(b - 1)
    ensures ToNat(a + b) == ToNat(a) + ToNat(b)
  {
    hide ToNat;
    NextByte(a + (b - 1));
    assert a + (b - 1) + 1 == a + b;
  }

  /** Bytes add like numbers as long as nothing wraps. */
  lemma {:induction false} SumOfBytes(a: byte, b: byte)
    requires ToNat(a) + ToNat(b) < 256
    ensures ToNat(a + b) == ToNat(a) + ToNat(b)
    decreases ToNat(b)
  {
    hide ToNat;
    if ToNat(b) == 0 {
      NoByte(a, b);
    } else {
      PreviousByte(b);
      SumOfBytes(a, b - 1);
      OneMore(a, b);
    }
  }

  lemma Grows(d: nat, x: nat, y: nat)
    requires x < y
    ensures d * x + d <= d * y
  {
    var z := y - x - 1;
    assert d * z >= 0;
    assert d * (x + 1 + z) == d * x + d + d * z;
  }

  /** Quotient and remainder are unique. */
  lemma DivMod(t: nat, d: nat, q: nat, r: nat)
    requires r < d && t == d * q + r
    ensures t / d == q && t % d == r
  {
    var q' := t / d;
    if q' > q { Grows(d, q, q'); }
    if q' < q { Grows(d, q', q); }
  }

  /** The bytes of a text of one-byte characters. */
  function Ascii(s: string): (r: seq<byte>)
    ensures |r| == |s|
  {
    seq(|s|, i requires 0 <= i < |s| => ToByte(s[i] as nat % 256))
  }

  /** A sum of sequences without its last element. */
  lemma InitOfSum<T>(a: seq<T>, b: seq<T>)
    requires b != []
    ensures (a + b)[..|a + b| - 1] == a + b[..|b| - 1] && (a + b)[|a + b| - 1] == b[|b| - 1]
  {
  }

  lemma SumsAssociate<T>(a: seq<T>, b: seq<T>, c: seq<T>)
    ensures (a + b) + c == a + (b + c)
  {
  }
}
