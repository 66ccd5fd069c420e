/** What the printed numbers mean: the decimal numerals of the printers, read with the digits of the scanner. */
module Numerals {
  import opened SampleJson
  import Scanner

  lemma DigitIs(n: nat)
    requires n < 10
    ensures Scanner.IsDigit(Digit(n)) && Scanner.DigitValue(Digit(n)) == n
  {
  }

  lemma NumberAppend(d: string, c: char)
    requires (forall i :: 0 <= i < |d| ==> Scanner.IsDigit(d[i])) && Scanner.IsDigit(c)
    ensures Scanner.Number(d + [c]) == 10 * Scanner.Number(d) + Scanner.DigitValue(c)
  {
    assert (d + [c])[..|d|] == d;
  }

  /** A printed number denotes itself, in base ten, most significant digit first and without leading zeros. */
  lemma {:induction false} DecimalDenotes(n: nat)
    ensures forall i :: 0 <= i < |Decimal(n)| ==> Scanner.IsDigit(Decimal(n)[i])
    ensures Scanner.Number(Decimal(n)) == n
    ensures n > 0 ==> Decimal(n)[0] != '0'
    ensures n == 0 ==> Decimal(n) == "0"
  {
    hide Scanner.DigitValue, Scanner.IsDigit;
    assert Scanner.Number("") == 0;
    hide Scanner.Number;
    DigitIs(n % 10);
    if n < 10 {
      NumberAppend("", Digit(n));
      assert "" + [Digit(n)] == [Digit(n)];
    } else {
      DecimalDenotes(n / 10);
      NumberAppend(Decimal(n / 10), Digit(n % 10));
    }
  }

  /** A printed integer is a literal of the scanner, with a minus sign if and only if it is negative, and its digits
      denote the absolute value. */
  lemma IntegerDenotes(n: int)
    ensures Scanner.LiteralAt(Integer(n), 0) == Scanner.Literal(n < 0, Decimal(if n < 0 then -n else n))
    ensures Integer(n) == (if n < 0 then "-" else "") + Decimal(if n < 0 then -n else n)
    ensures Scanner.Number(Decimal(if n < 0 then -n else n)) == if n < 0 then -n else n
  {
    var s, m, d := Integer(n), if n < 0 then -n else n, if n < 0 then 1 else 0;
    DecimalDenotes(m);
    hide Scanner.Number, Scanner.LiteralAt, Decimal;
    assert s[d..] == Decimal(m) && |s| == d + |Decimal(m)|;
    forall i | d <= i < |s| ensures Scanner.IsDigit(s[i]) {
      assert s[i] == Decimal(m)[i - d];
    }
    Scanner.LiteralFound(s, 0, 0, d, |s|);
    assert s[d..|s|] == s[d..];
  }

  /** Different numbers print differently. */
  lemma IntegerDetermines(m: int, n: int)
    ensures Integer(m) == Integer(n) <==> m == n
  {
    IntegerDenotes(m);
    IntegerDenotes(n);
    hide Integer, Decimal, Scanner.LiteralAt, Scanner.Number;
  }

  lemma DecimalStep(n: nat, d: nat)
    requires n > 0 && d < 10
    ensures Decimal(10 * n + d) == Decimal(n) + [Digit(d)]
  {
  }

  /** Some numbers in full, with every digit. */
  lemma Numbers()
    ensures Integer(0) == "0" && Integer(12) == "12" && Integer(-12) == "-12"
    ensures Integer(1234567890) == "1234567890"
  {
    DecimalStep(1, 2);
    DecimalStep(12, 3);
    DecimalStep(123, 4);
    DecimalStep(1234, 5);
    DecimalStep(12345, 6);
    DecimalStep(123456, 7);
    DecimalStep(1234567, 8);
    DecimalStep(12345678, 9);
    DecimalStep(123456789, 0);
    assert Decimal(1) == "1";
    hide Decimal;
  }
}
