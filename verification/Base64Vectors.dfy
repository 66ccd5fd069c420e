/** Known answers for Base64: the test vectors of section 10 of RFC 4648 and the accept value of section 1.3 of
    RFC 6455. */
module Base64Vectors {
  import opened Basics
  import opened Base64

  lemma GroupF()
    ensures EncodeGroup([0x66]) == "Zg=="
  {
    assert Symbols(0x66, 0, 0, 1) == "Zg==" by {
      assert Triple(0x66, 0, 0) == 0x660000 && Sextets(0x660000) == [25, 32, 0, 0];
      hide Triple, Sextets;
      assert Symbol(25) == 'Z' && Symbol(32) == 'g';
      hide Symbol;
    }
    hide Symbols;
    assert ToNat(0x66) == 0x66;
  }

  lemma GroupFo()
    ensures EncodeGroup([0x66, 0x6F]) == "Zm8="
  {
    assert Symbols(0x66, 0x6F, 0, 2) == "Zm8=" by {
      assert Triple(0x66, 0x6F, 0) == 0x666F00 && Sextets(0x666F00) == [25, 38, 60, 0];
      hide Triple, Sextets;
      assert Symbol(25) == 'Z' && Symbol(38) == 'm' && Symbol(60) == '8';
      hide Symbol;
    }
    hide Symbols;
    assert ToNat(0x66) == 0x66 && ToNat(0x6F) == 0x6F;
  }

  lemma GroupFoo()
    ensures EncodeGroup([0x66, 0x6F, 0x6F]) == "Zm9v"
  {
    assert Symbols(0x66, 0x6F, 0x6F, 3) == "Zm9v" by {
      assert Triple(0x66, 0x6F, 0x6F) == 0x666F6F && Sextets(0x666F6F) == [25, 38, 61, 47];
      hide Triple, Sextets;
      assert Symbol(25) == 'Z' && Symbol(38) == 'm' && Symbol(61) == '9' && Symbol(47) == 'v';
      hide Symbol;
    }
    hide Symbols;
    assert ToNat(0x66) == 0x66 && ToNat(0x6F) == 0x6F;
  }

  lemma GroupB()
    ensures EncodeGroup([0x62]) == "Yg=="
  {
    assert Symbols(0x62, 0, 0, 1) == "Yg==" by {
      assert Triple(0x62, 0, 0) == 0x620000 && Sextets(0x620000) == [24, 32, 0, 0];
      hide Triple, Sextets;
      assert Symbol(24) == 'Y' && Symbol(32) == 'g';
      hide Symbol;
    }
    hide Symbols;
    assert ToNat(0x62) == 0x62;
  }

  lemma GroupBa()
    ensures EncodeGroup([0x62, 0x61]) == "YmE="
  {
    assert Symbols(0x62, 0x61, 0, 2) == "YmE=" by {
      assert Triple(0x62, 0x61, 0) == 0x626100 && Sextets(0x626100) == [24, 38, 4, 0];
      hide Triple, Sextets;
      assert Symbol(24) == 'Y' && Symbol(38) == 'm' && Symbol(4) == 'E';
      hide Symbol;
    }
    hide Symbols;
    assert ToNat(0x62) == 0x62 && ToNat(0x61) == 0x61;
  }

  lemma GroupBar()
    ensures EncodeGroup([0x62, 0x61, 0x72]) == "YmFy"
  {
    assert Symbols(0x62, 0x61, 0x72, 3) == "YmFy" by {
      assert Triple(0x62, 0x61, 0x72) == 0x626172 && Sextets(0x626172) == [24, 38, 5, 50];
      hide Triple, Sextets;
      assert Symbol(24) == 'Y' && Symbol(38) == 'm' && Symbol(5) == 'F' && Symbol(50) == 'y';
      hide Symbol;
    }
    hide Symbols;
    assert ToNat(0x62) == 0x62 && ToNat(0x61) == 0x61 && ToNat(0x72) == 0x72;
  }

  /** The vectors "", f, fo, foo, foob, fooba and foobar. */
  lemma TestVectors()
    ensures Encode([]) == ""
    ensures Encode([0x66]) == "Zg=="
    ensures Encode([0x66, 0x6F]) == "Zm8="
    ensures Encode([0x66, 0x6F, 0x6F]) == "Zm9v"
    ensures Encode([0x66, 0x6F, 0x6F, 0x62]) == "Zm9vYg=="
    ensures Encode([0x66, 0x6F, 0x6F, 0x62, 0x61]) == "Zm9vYmE="
    ensures Encode([0x66, 0x6F, 0x6F, 0x62, 0x61, 0x72]) == "Zm9vYmFy"
  {
    hide EncodeGroup, Encode;
    EmptyText([]);
    GroupF();
    GroupFo();
    GroupFoo();
    GroupB();
    GroupBa();
    GroupBar();
    Last([0x66], "Zg==");
    Last([0x66, 0x6F], "Zm8=");
    Last([0x66, 0x6F, 0x6F], "Zm9v");
    Last([0x62], "Yg==");
    Last([0x62, 0x61], "YmE=");
    Last([0x62, 0x61, 0x72], "YmFy");
    Then([0x66, 0x6F, 0x6F, 0x62], [0x66, 0x6F, 0x6F], [0x62], "Zm9vYg==", "Zm9v", "Yg==");
    Then([0x66, 0x6F, 0x6F, 0x62, 0x61], [0x66, 0x6F, 0x6F], [0x62, 0x61], "Zm9vYmE=", "Zm9v", "YmE=");
    Then([0x66, 0x6F, 0x6F, 0x62, 0x61, 0x72], [0x66, 0x6F, 0x6F], [0x62, 0x61, 0x72], "Zm9vYmFy", "Zm9v", "YmFy");
  }

  lemma Last(g: seq<byte>, t: string)
    requires 1 <= |g| <= 3 && EncodeGroup(g) == t
    ensures Encode(g) == t
  {
    hide EncodeGroup, Encode;
    EmptyText([]);
    EncodeStep(g, g, []);
  }

  lemma Then(s: seq<byte>, g: seq<byte>, rest: seq<byte>, v: string, t: string, u: string)
    requires |g| == 3 && EncodeGroup(g) == t && Encode(rest) == u && s == g + rest && v == t + u
    ensures Encode(s) == v
  {
    hide EncodeGroup, Encode;
    EncodeStep(s, g, rest);
  }

  lemma Group0()
    ensures EncodeGroup([0xB3, 0x7A, 0x4F]) == "s3pP"
  {
    assert Symbols(0xB3, 0x7A, 0x4F, 3) == "s3pP" by {
      assert Triple(0xB3, 0x7A, 0x4F) == 0xB37A4F && Sextets(0xB37A4F) == [44, 55, 41, 15];
      hide Triple, Sextets;
      assert Symbol(44) == 's' && Symbol(55) == '3' && Symbol(41) == 'p' && Symbol(15) == 'P';
      hide Symbol;
    }
    hide Symbols;
    assert ToNat(0xB3) == 0xB3 && ToNat(0x7A) == 0x7A && ToNat(0x4F) == 0x4F;
  }

  lemma Group1()
    ensures EncodeGroup([0x2C, 0xC0, 0x62]) == "LMBi"
  {
    assert Symbols(0x2C, 0xC0, 0x62, 3) == "LMBi" by {
      assert Triple(0x2C, 0xC0, 0x62) == 0x2CC062 && Sextets(0x2CC062) == [11, 12, 1, 34];
      hide Triple, Sextets;
      assert Symbol(11) == 'L' && Symbol(12) == 'M' && Symbol(1) == 'B' && Symbol(34) == 'i';
      hide Symbol;
    }
    hide Symbols;
    assert ToNat(0x2C) == 0x2C && ToNat(0xC0) == 0xC0 && ToNat(0x62) == 0x62;
  }

  lemma Group2()
    ensures EncodeGroup([0x4F, 0x16, 0x90]) == "TxaQ"
  {
    assert Symbols(0x4F, 0x16, 0x90, 3) == "TxaQ" by {
      assert Triple(0x4F, 0x16, 0x90) == 0x4F1690 && Sextets(0x4F1690) == [19, 49, 26, 16];
      hide Triple, Sextets;
      assert Symbol(19) == 'T' && Symbol(49) == 'x' && Symbol(26) == 'a' && Symbol(16) == 'Q';
      hide Symbol;
    }
    hide Symbols;
    assert ToNat(0x4F) == 0x4F && ToNat(0x16) == 0x16 && ToNat(0x90) == 0x90;
  }

  lemma Group3()
    ensures EncodeGroup([0xF6, 0x46, 0x06]) == "9kYG"
  {
    assert Symbols(0xF6, 0x46, 0x06, 3) == "9kYG" by {
      assert Triple(0xF6, 0x46, 0x06) == 0xF64606 && Sextets(0xF64606) == [61, 36, 24, 6];
      hide Triple, Sextets;
      assert Symbol(61) == '9' && Symbol(36) == 'k' && Symbol(24) == 'Y' && Symbol(6) == 'G';
      hide Symbol;
    }
    hide Symbols;
    assert ToNat(0xF6) == 0xF6 && ToNat(0x46) == 0x46 && ToNat(0x06) == 0x06;
  }

  lemma Group4()
    ensures EncodeGroup([0xCF, 0x38, 0x59]) == "zzhZ"
  {
    assert Symbols(0xCF, 0x38, 0x59, 3) == "zzhZ" by {
      assert Triple(0xCF, 0x38, 0x59) == 0xCF3859 && Sextets(0xCF3859) == [51, 51, 33, 25];
      hide Triple, Sextets;
      assert Symbol(51) == 'z' && Symbol(33) == 'h' && Symbol(25) == 'Z';
      hide Symbol;
    }
    hide Symbols;
    assert ToNat(0xCF) == 0xCF && ToNat(0x38) == 0x38 && ToNat(0x59) == 0x59;
  }

  lemma Group5()
    ensures EncodeGroup([0x45, 0xB2, 0xBE]) == "RbK+"
  {
    assert Symbols(0x45, 0xB2, 0xBE, 3) == "RbK+" by {
      assert Triple(0x45, 0xB2, 0xBE) == 0x45B2BE && Sextets(0x45B2BE) == [17, 27, 10, 62];
      hide Triple, Sextets;
      assert Symbol(17) == 'R' && Symbol(27) == 'b' && Symbol(10) == 'K' && Symbol(62) == '+';
      hide Symbol;
    }
    hide Symbols;
    assert ToNat(0x45) == 0x45 && ToNat(0xB2) == 0xB2 && ToNat(0xBE) == 0xBE;
  }

  lemma Group6()
    ensures EncodeGroup([0xC4, 0xEA]) == "xOo="
  {
    assert Symbols(0xC4, 0xEA, 0, 2) == "xOo=" by {
      assert Triple(0xC4, 0xEA, 0) == 0xC4EA00 && Sextets(0xC4EA00) == [49, 14, 40, 0];
      hide Triple, Sextets;
      assert Symbol(49) == 'x' && Symbol(14) == 'O' && Symbol(40) == 'o';
      hide Symbol;
    }
    hide Symbols;
    assert ToNat(0xC4) == 0xC4 && ToNat(0xEA) == 0xEA;
  }

  lemma LastBytes()
    ensures Encode([0xF6, 0x46, 0x06, 0xCF, 0x38, 0x59, 0x45, 0xB2, 0xBE, 0xC4, 0xEA]) == "9kYGzzhZRbK+xOo="
  {
    hide EncodeGroup, Encode;
    Group3(); Group4(); Group5(); Group6();
    var r6: seq<byte>, u6 := [0xC4, 0xEA], "xOo=";
    Last(r6, u6);
    var g3, e3: string := [0xF6, 0x46, 0x06], "9kYG";
    var g4, e4: string := [0xCF, 0x38, 0x59], "zzhZ";
    var g5, e5: string := [0x45, 0xB2, 0xBE], "RbK+";
    var r5: seq<byte>, u5 := [0x45, 0xB2, 0xBE, 0xC4, 0xEA], "RbK+xOo=";
    Then(r5, g5, r6, u5, e5, u6);
    var r4: seq<byte>, u4 := [0xCF, 0x38, 0x59, 0x45, 0xB2, 0xBE, 0xC4, 0xEA], "zzhZRbK+xOo=";
    Then(r4, g4, r5, u4, e4, u5);
    var r3: seq<byte>, u3 := [0xF6, 0x46, 0x06, 0xCF, 0x38, 0x59, 0x45, 0xB2, 0xBE, 0xC4, 0xEA], "9kYGzzhZRbK+xOo=";
    Then(r3, g3, r4, u3, e3, u4);
  }

  /** The SHA-1 hash of the sample handshake. */
  lemma SampleAccept()
    ensures Encode([0xB3, 0x7A, 0x4F, 0x2C, 0xC0, 0x62, 0x4F, 0x16, 0x90, 0xF6, 0x46, 0x06]
      + [0xCF, 0x38, 0x59, 0x45, 0xB2, 0xBE, 0xC4, 0xEA]) == "s3pPLMBiTxaQ" + "9kYGzzhZRbK+xOo="
  {
    hide EncodeGroup, Encode;
    Group0(); Group1(); Group2(); Group3();
    LastBytes();
    var r3: seq<byte>, u3 := [0xF6, 0x46, 0x06, 0xCF, 0x38, 0x59, 0x45, 0xB2, 0xBE, 0xC4, 0xEA], "9kYGzzhZRbK+xOo=";
    var g0, e0: string := [0xB3, 0x7A, 0x4F], "s3pP";
    var g1, e1: string := [0x2C, 0xC0, 0x62], "LMBi";
    var g2, e2: string := [0x4F, 0x16, 0x90], "TxaQ";
    var r2: seq<byte>, u2 := [0x4F, 0x16, 0x90, 0xF6, 0x46, 0x06]
      + [0xCF, 0x38, 0x59, 0x45, 0xB2, 0xBE, 0xC4, 0xEA], "TxaQ" + "9kYGzzhZRbK+xOo=";
    Then(r2, g2, r3, u2, e2, u3);
    var r1: seq<byte>, u1 := [0x2C, 0xC0, 0x62, 0x4F, 0x16, 0x90, 0xF6, 0x46, 0x06]
      + [0xCF, 0x38, 0x59, 0x45, 0xB2, 0xBE, 0xC4, 0xEA], "LMBiTxaQ" + "9kYGzzhZRbK+xOo=";
    Then(r1, g1, r2, u1, e1, u2);
    var r0: seq<byte>, u0 := [0xB3, 0x7A, 0x4F, 0x2C, 0xC0, 0x62, 0x4F, 0x16, 0x90, 0xF6, 0x46, 0x06]
      + [0xCF, 0x38, 0x59, 0x45, 0xB2, 0xBE, 0xC4, 0xEA], "s3pPLMBiTxaQ" + "9kYGzzhZRbK+xOo=";
    Then(r0, g0, r1, u0, e0, u1);
  }
}
