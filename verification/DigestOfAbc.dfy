/** A known answer of FIPS 180-4: the digest of "abc". */
module DigestOfAbc {
  import opened Basics
  import opened Sha1Spec
  import opened DigestTrace

  /** The message schedule. */
  function W(t: nat): word {
    if t < 10 then
      (match t case 0 => 0x61626380 case 1 => 0x00000000 case 2 => 0x00000000 case 3 => 0x00000000
       case 4 => 0x00000000 case 5 => 0x00000000 case 6 => 0x00000000 case 7 => 0x00000000
       case 8 => 0x00000000 case _ => 0x00000000)
    else if t < 20 then
      (match t case 10 => 0x00000000 case 11 => 0x00000000 case 12 => 0x00000000 case 13 => 0x00000000
       case 14 => 0x00000000 case 15 => 0x00000018 case 16 => 0xC2C4C700 case 17 => 0x00000000
       case 18 => 0x00000030 case _ => 0x85898E01)
    else if t < 30 then
      (match t case 20 => 0x00000000 case 21 => 0x00000060 case 22 => 0x0B131C03 case 23 => 0x00000030
       case 24 => 0x85898EC1 case 25 => 0x16263806 case 26 => 0x00000000 case 27 => 0x00000180
       case 28 => 0x2C4C700C case _ => 0x000000F0)
    else if t < 40 then
      (match t case 30 => 0x93AFB507 case 31 => 0x5898E048 case 32 => 0x8E9A9202 case 33 => 0x00000600
       case 34 => 0xB131C0F0 case 35 => 0x16263BC6 case 36 => 0x4EBED41E case 37 => 0x626380A1
       case 38 => 0x16263806 case _ => 0x000018C0)
    else if t < 50 then
      (match t case 40 => 0xD2E138C4 case 41 => 0x00000F00 case 42 => 0x3AFB5079 case 43 => 0x898E04E5
       case 44 => 0xE2BA3C2B case 45 => 0x000060C0 case 46 => 0x053A37CD case 47 => 0x74458547
       case 48 => 0xDA9415ED case _ => 0x26380A16)
    else if t < 60 then
      (match t case 50 => 0x626383A1 case 51 => 0x4EBF54DE case 52 => 0x3835B44B case 53 => 0x0000F600
       case 54 => 0x1E84C7A3 case 55 => 0x98E04D98 case 56 => 0x651D16A0 case 57 => 0x62658CA1
       case 58 => 0x458544D6 case _ => 0x44584CB7)
    else if t < 70 then
      (match t case 60 => 0x7BA06619 case 61 => 0x6380AEA2 case 62 => 0x0AE55269 case 63 => 0x627B49A1
       case 64 => 0x7CD45C9D case 65 => 0x000F0000 case 66 => 0xFB50753A case 67 => 0xEC6765E8
       case 68 => 0xBA3C2BE2 case _ => 0x0060C000)
    else
      (match t case 70 => 0x3A37CD05 case 71 => 0x458546F4 case 72 => 0xB8599DD6 case 73 => 0x380A1A26
       case 74 => 0x01E02203 case 75 => 0xE7CC3456 case 76 => 0xE6E60B69 case 77 => 0x00F60A00
       case 78 => 0x5795EF4F case _ => 0x822E0879)
  }

  /** The values of the first working variable: four of old, the one before the first round, and one for each round. */
  function V(t: nat): word {
    if t < 10 then
      (match t case 0 => 0x0F4B87C3 case 1 => 0x40C951D8 case 2 => 0x62EB73FA case 3 => 0xEFCDAB89
       case 4 => 0x67452301 case 5 => 0x0116FC33 case 6 => 0x8990536D case 7 => 0xA1390F08
       case 8 => 0xCDD8E11B case _ => 0xCFD499DE)
    else if t < 20 then
      (match t case 10 => 0x3FC7CA40 case 11 => 0x993E30C1 case 12 => 0x9E8C07D4 case 13 => 0x4B6AE328
       case 14 => 0x8351F929 case 15 => 0xFBDA9E89 case 16 => 0x63188FE4 case 17 => 0x4607B664
       case 18 => 0x9128F695 case _ => 0x196BEE77)
    else if t < 30 then
      (match t case 20 => 0x20BDD62F case 21 => 0x4E925823 case 22 => 0x82AA6728 case 23 => 0xDC64901D
       case 24 => 0xFD9E1D7D case 25 => 0x1A37B0CA case 26 => 0x33A23BFC case 27 => 0x21283486
       case 28 => 0xD541F12D case _ => 0xC7567DC6)
    else if t < 40 then
      (match t case 30 => 0x48413BA4 case 31 => 0xBE35FBD5 case 32 => 0x4AA84D97 case 33 => 0x8370B52E
       case 34 => 0xC5FBAF5D case 35 => 0x1267B407 case 36 => 0x3B845D33 case 37 => 0x046FAA0A
       case 38 => 0x2C0EBC11 case _ => 0x21796AD4)
    else if t < 50 then
      (match t case 40 => 0xDCBBB0CB case 41 => 0x0F511FD8 case 42 => 0xDC63973F case 43 => 0x4C986405
       case 44 => 0x32DE1CBA case 45 => 0xFC87DEDF case 46 => 0x970A0D5C case 47 => 0x7F193DC5
       case 48 => 0xEE1B1AAF case _ => 0x40F28E09)
    else if t < 60 then
      (match t case 50 => 0x1C51E1F2 case 51 => 0xA01B846C case 52 => 0xBEAD02CA case 53 => 0xBAF39337
       case 54 => 0x120731C5 case 55 => 0x641DB2CE case 56 => 0x3847AD66 case 57 => 0xE490436D
       case 58 => 0x27E9F1D8 case _ => 0x7B71F76D)
    else if t < 70 then
      (match t case 60 => 0x5E6456AF case 61 => 0xC846093F case 62 => 0xD262FF50 case 63 => 0x09D785FD
       case 64 => 0x3F52DE5A case 65 => 0xD756C147 case 66 => 0x548C9CB2 case 67 => 0xB66C020B
       case 68 => 0x6B61C9E1 case _ => 0x19DFA7AC)
    else if t < 80 then
      (match t case 70 => 0x101655F9 case 71 => 0x0C3DF2B4 case 72 => 0x78DD4D2B case 73 => 0x497093C0
       case 74 => 0x3F2588C2 case 75 => 0xC199F8C7 case 76 => 0x39859DE7 case 77 => 0xEDB42DE4
       case 78 => 0x11793F6F case _ => 0x5EE76897)
    else
      (match t case 80 => 0x63F7DAB7 case 81 => 0xA079B7D9 case 82 => 0x860D21CC case 83 => 0x5738D5E1
       case _ => 0x42541B35)
  }

  lemma MixedFrom16()
    ensures forall t :: 16 <= t < 20 ==> Mixed(W, t)
  {
    assert Mix(W(13), W(8), W(2), W(0)) == W(16) && Mix(W(14), W(9), W(3), W(1)) == W(17);
    assert Mix(W(15), W(10), W(4), W(2)) == W(18) && Mix(W(16), W(11), W(5), W(3)) == W(19);
    hide Mix, W;
    forall t | 16 <= t < 20 ensures Mixed(W, t) {
      assert t == 16 || t == 17 || t == 18 || t == 19;
    }
  }

  lemma MixedFrom20()
    ensures forall t :: 20 <= t < 24 ==> Mixed(W, t)
  {
    assert Mix(W(17), W(12), W(6), W(4)) == W(20) && Mix(W(18), W(13), W(7), W(5)) == W(21);
    assert Mix(W(19), W(14), W(8), W(6)) == W(22) && Mix(W(20), W(15), W(9), W(7)) == W(23);
    hide Mix, W;
    forall t | 20 <= t < 24 ensures Mixed(W, t) {
      assert t == 20 || t == 21 || t == 22 || t == 23;
    }
  }

  lemma MixedFrom24()
    ensures forall t :: 24 <= t < 28 ==> Mixed(W, t)
  {
    assert Mix(W(21), W(16), W(10), W(8)) == W(24) && Mix(W(22), W(17), W(11), W(9)) == W(25);
    assert Mix(W(23), W(18), W(12), W(10)) == W(26) && Mix(W(24), W(19), W(13), W(11)) == W(27);
    hide Mix, W;
    forall t | 24 <= t < 28 ensures Mixed(W, t) {
      assert t == 24 || t == 25 || t == 26 || t == 27;
    }
  }

  lemma MixedFrom28()
    ensures forall t :: 28 <= t < 32 ==> Mixed(W, t)
  {
    assert Mix(W(25), W(20), W(14), W(12)) == W(28) && Mix(W(26), W(21), W(15), W(13)) == W(29);
    assert Mix(W(27), W(22), W(16), W(14)) == W(30) && Mix(W(28), W(23), W(17), W(15)) == W(31);
    hide Mix, W;
    forall t | 28 <= t < 32 ensures Mixed(W, t) {
      assert t == 28 || t == 29 || t == 30 || t == 31;
    }
  }

  lemma MixedFrom32()
    ensures forall t :: 32 <= t < 36 ==> Mixed(W, t)
  {
    assert Mix(W(29), W(24), W(18), W(16)) == W(32) && Mix(W(30), W(25), W(19), W(17)) == W(33);
    assert Mix(W(31), W(26), W(20), W(18)) == W(34) && Mix(W(32), W(27), W(21), W(19)) == W(35);
    hide Mix, W;
    forall t | 32 <= t < 36 ensures Mixed(W, t) {
      assert t == 32 || t == 33 || t == 34 || t == 35;
    }
  }

  lemma MixedFrom36()
    ensures forall t :: 36 <= t < 40 ==> Mixed(W, t)
  {
    assert Mix(W(33), W(28), W(22), W(20)) == W(36) && Mix(W(34), W(29), W(23), W(21)) == W(37);
    assert Mix(W(35), W(30), W(24), W(22)) == W(38) && Mix(W(36), W(31), W(25), W(23)) == W(39);
    hide Mix, W;
    forall t | 36 <= t < 40 ensures Mixed(W, t) {
      assert t == 36 || t == 37 || t == 38 || t == 39;
    }
  }

  lemma MixedFrom40()
    ensures forall t :: 40 <= t < 44 ==> Mixed(W, t)
  {
    assert Mix(W(37), W(32), W(26), W(24)) == W(40) && Mix(W(38), W(33), W(27), W(25)) == W(41);
    assert Mix(W(39), W(34), W(28), W(26)) == W(42) && Mix(W(40), W(35), W(29), W(27)) == W(43);
    hide Mix, W;
    forall t | 40 <= t < 44 ensures Mixed(W, t) {
      assert t == 40 || t == 41 || t == 42 || t == 43;
    }
  }

  lemma MixedFrom44()
    ensures forall t :: 44 <= t < 48 ==> Mixed(W, t)
  {
    assert Mix(W(41), W(36), W(30), W(28)) == W(44) && Mix(W(42), W(37), W(31), W(29)) == W(45);
    assert Mix(W(43), W(38), W(32), W(30)) == W(46) && Mix(W(44), W(39), W(33), W(31)) == W(47);
    hide Mix, W;
    forall t | 44 <= t < 48 ensures Mixed(W, t) {
      assert t == 44 || t == 45 || t == 46 || t == 47;
    }
  }

  lemma MixedFrom48()
    ensures forall t :: 48 <= t < 52 ==> Mixed(W, t)
  {
    assert Mix(W(45), W(40), W(34), W(32)) == W(48) && Mix(W(46), W(41), W(35), W(33)) == W(49);
    assert Mix(W(47), W(42), W(36), W(34)) == W(50) && Mix(W(48), W(43), W(37), W(35)) == W(51);
    hide Mix, W;
    forall t | 48 <= t < 52 ensures Mixed(W, t) {
      assert t == 48 || t == 49 || t == 50 || t == 51;
    }
  }

  lemma MixedFrom52()
    ensures forall t :: 52 <= t < 56 ==> Mixed(W, t)
  {
    assert Mix(W(49), W(44), W(38), W(36)) == W(52) && Mix(W(50), W(45), W(39), W(37)) == W(53);
    assert Mix(W(51), W(46), W(40), W(38)) == W(54) && Mix(W(52), W(47), W(41), W(39)) == W(55);
    hide Mix, W;
    forall t | 52 <= t < 56 ensures Mixed(W, t) {
      assert t == 52 || t == 53 || t == 54 || t == 55;
    }
  }

  lemma MixedFrom56()
    ensures forall t :: 56 <= t < 60 ==> Mixed(W, t)
  {
    assert Mix(W(53), W(48), W(42), W(40)) == W(56) && Mix(W(54), W(49), W(43), W(41)) == W(57);
    assert Mix(W(55), W(50), W(44), W(42)) == W(58) && Mix(W(56), W(51), W(45), W(43)) == W(59);
    hide Mix, W;
    forall t | 56 <= t < 60 ensures Mixed(W, t) {
      assert t == 56 || t == 57 || t == 58 || t == 59;
    }
  }

  lemma MixedFrom60()
    ensures forall t :: 60 <= t < 64 ==> Mixed(W, t)
  {
    assert Mix(W(57), W(52), W(46), W(44)) == W(60) && Mix(W(58), W(53), W(47), W(45)) == W(61);
    assert Mix(W(59), W(54), W(48), W(46)) == W(62) && Mix(W(60), W(55), W(49), W(47)) == W(63);
    hide Mix, W;
    forall t | 60 <= t < 64 ensures Mixed(W, t) {
      assert t == 60 || t == 61 || t == 62 || t == 63;
    }
  }

  lemma MixedFrom64()
    ensures forall t :: 64 <= t < 68 ==> Mixed(W, t)
  {
    assert Mix(W(61), W(56), W(50), W(48)) == W(64) && Mix(W(62), W(57), W(51), W(49)) == W(65);
    assert Mix(W(63), W(58), W(52), W(50)) == W(66) && Mix(W(64), W(59), W(53), W(51)) == W(67);
    hide Mix, W;
    forall t | 64 <= t < 68 ensures Mixed(W, t) {
      assert t == 64 || t == 65 || t == 66 || t == 67;
    }
  }

  lemma MixedFrom68()
    ensures forall t :: 68 <= t < 72 ==> Mixed(W, t)
  {
    assert Mix(W(65), W(60), W(54), W(52)) == W(68) && Mix(W(66), W(61), W(55), W(53)) == W(69);
    assert Mix(W(67), W(62), W(56), W(54)) == W(70) && Mix(W(68), W(63), W(57), W(55)) == W(71);
    hide Mix, W;
    forall t | 68 <= t < 72 ensures Mixed(W, t) {
      assert t == 68 || t == 69 || t == 70 || t == 71;
    }
  }

  lemma MixedFrom72()
    ensures forall t :: 72 <= t < 76 ==> Mixed(W, t)
  {
    assert Mix(W(69), W(64), W(58), W(56)) == W(72) && Mix(W(70), W(65), W(59), W(57)) == W(73);
    assert Mix(W(71), W(66), W(60), W(58)) == W(74) && Mix(W(72), W(67), W(61), W(59)) == W(75);
    hide Mix, W;
    forall t | 72 <= t < 76 ensures Mixed(W, t) {
      assert t == 72 || t == 73 || t == 74 || t == 75;
    }
  }

  lemma MixedFrom76()
    ensures forall t :: 76 <= t < 80 ==> Mixed(W, t)
  {
    assert Mix(W(73), W(68), W(62), W(60)) == W(76) && Mix(W(74), W(69), W(63), W(61)) == W(77);
    assert Mix(W(75), W(70), W(64), W(62)) == W(78) && Mix(W(76), W(71), W(65), W(63)) == W(79);
    hide Mix, W;
    forall t | 76 <= t < 80 ensures Mixed(W, t) {
      assert t == 76 || t == 77 || t == 78 || t == 79;
    }
  }

  lemma RoundedFrom0()
    ensures forall t :: 0 <= t < 5 ==> Rounded(V, W, t)
  {
    assert V(5)
        == Sum(Rotl(V(4), 5), F(0, V(3), Rotl(V(2), 30), Rotl(V(1), 30)), Rotl(V(0), 30), K(0), W(0));
    assert V(6)
        == Sum(Rotl(V(5), 5), F(1, V(4), Rotl(V(3), 30), Rotl(V(2), 30)), Rotl(V(1), 30), K(1), W(1));
    assert V(7)
        == Sum(Rotl(V(6), 5), F(2, V(5), Rotl(V(4), 30), Rotl(V(3), 30)), Rotl(V(2), 30), K(2), W(2));
    assert V(8)
        == Sum(Rotl(V(7), 5), F(3, V(6), Rotl(V(5), 30), Rotl(V(4), 30)), Rotl(V(3), 30), K(3), W(3));
    assert V(9)
        == Sum(Rotl(V(8), 5), F(4, V(7), Rotl(V(6), 30), Rotl(V(5), 30)), Rotl(V(4), 30), K(4), W(4));
    hide Sum, Rotl, F, K, V, W;
    forall t | 0 <= t < 5 ensures Rounded(V, W, t) {
      assert t == 0 || t == 1 || t == 2 || t == 3 || t == 4;
    }
  }

  lemma RoundedFrom5()
    ensures forall t :: 5 <= t < 10 ==> Rounded(V, W, t)
  {
    assert V(10)
        == Sum(Rotl(V(9), 5), F(5, V(8), Rotl(V(7), 30), Rotl(V(6), 30)), Rotl(V(5), 30), K(5), W(5));
    assert V(11)
        == Sum(Rotl(V(10), 5), F(6, V(9), Rotl(V(8), 30), Rotl(V(7), 30)), Rotl(V(6), 30), K(6), W(6));
    assert V(12)
        == Sum(Rotl(V(11), 5), F(7, V(10), Rotl(V(9), 30), Rotl(V(8), 30)), Rotl(V(7), 30), K(7), W(7));
    assert V(13)
        == Sum(Rotl(V(12), 5), F(8, V(11), Rotl(V(10), 30), Rotl(V(9), 30)), Rotl(V(8), 30), K(8), W(8));
    assert V(14)
        == Sum(Rotl(V(13), 5), F(9, V(12), Rotl(V(11), 30), Rotl(V(10), 30)), Rotl(V(9), 30), K(9), W(9));
    hide Sum, Rotl, F, K, V, W;
    forall t | 5 <= t < 10 ensures Rounded(V, W, t) {
      assert t == 5 || t == 6 || t == 7 || t == 8 || t == 9;
    }
  }

  lemma RoundedFrom10()
    ensures forall t :: 10 <= t < 15 ==> Rounded(V, W, t)
  {
    assert V(15)
        == Sum(Rotl(V(14), 5), F(10, V(13), Rotl(V(12), 30), Rotl(V(11), 30)), Rotl(V(10), 30), K(10), W(10));
    assert V(16)
        == Sum(Rotl(V(15), 5), F(11, V(14), Rotl(V(13), 30), Rotl(V(12), 30)), Rotl(V(11), 30), K(11), W(11));
    assert V(17)
        == Sum(Rotl(V(16), 5), F(12, V(15), Rotl(V(14), 30), Rotl(V(13), 30)), Rotl(V(12), 30), K(12), W(12));
    assert V(18)
        == Sum(Rotl(V(17), 5), F(13, V(16), Rotl(V(15), 30), Rotl(V(14), 30)), Rotl(V(13), 30), K(13), W(13));
    assert V(19)
        == Sum(Rotl(V(18), 5), F(14, V(17), Rotl(V(16), 30), Rotl(V(15), 30)), Rotl(V(14), 30), K(14), W(14));
    hide Sum, Rotl, F, K, V, W;
    forall t | 10 <= t < 15 ensures Rounded(V, W, t) {
      assert t == 10 || t == 11 || t == 12 || t == 13 || t == 14;
    }
  }

  lemma RoundedFrom15()
    ensures forall t :: 15 <= t < 20 ==> Rounded(V, W, t)
  {
    assert V(20)
        == Sum(Rotl(V(19), 5), F(15, V(18), Rotl(V(17), 30), Rotl(V(16), 30)), Rotl(V(15), 30), K(15), W(15));
    assert V(21)
        == Sum(Rotl(V(20), 5), F(16, V(19), Rotl(V(18), 30), Rotl(V(17), 30)), Rotl(V(16), 30), K(16), W(16));
    assert V(22)
        == Sum(Rotl(V(21), 5), F(17, V(20), Rotl(V(19), 30), Rotl(V(18), 30)), Rotl(V(17), 30), K(17), W(17));
    assert V(23)
        == Sum(Rotl(V(22), 5), F(18, V(21), Rotl(V(20), 30), Rotl(V(19), 30)), Rotl(V(18), 30), K(18), W(18));
    assert V(24)
        == Sum(Rotl(V(23), 5), F(19, V(22), Rotl(V(21), 30), Rotl(V(20), 30)), Rotl(V(19), 30), K(19), W(19));
    hide Sum, Rotl, F, K, V, W;
    forall t | 15 <= t < 20 ensures Rounded(V, W, t) {
      assert t == 15 || t == 16 || t == 17 || t == 18 || t == 19;
    }
  }

  lemma RoundedFrom20()
    ensures forall t :: 20 <= t < 25 ==> Rounded(V, W, t)
  {
    assert V(25)
        == Sum(Rotl(V(24), 5), F(20, V(23), Rotl(V(22), 30), Rotl(V(21), 30)), Rotl(V(20), 30), K(20), W(20));
    assert V(26)
        == Sum(Rotl(V(25), 5), F(21, V(24), Rotl(V(23), 30), Rotl(V(22), 30)), Rotl(V(21), 30), K(21), W(21));
    assert V(27)
        == Sum(Rotl(V(26), 5), F(22, V(25), Rotl(V(24), 30), Rotl(V(23), 30)), Rotl(V(22), 30), K(22), W(22));
    assert V(28)
        == Sum(Rotl(V(27), 5), F(23, V(26), Rotl(V(25), 30), Rotl(V(24), 30)), Rotl(V(23), 30), K(23), W(23));
    assert V(29)
        == Sum(Rotl(V(28), 5), F(24, V(27), Rotl(V(26), 30), Rotl(V(25), 30)), Rotl(V(24), 30), K(24), W(24));
    hide Sum, Rotl, F, K, V, W;
    forall t | 20 <= t < 25 ensures Rounded(V, W, t) {
      assert t == 20 || t == 21 || t == 22 || t == 23 || t == 24;
    }
  }

  lemma RoundedFrom25()
    ensures forall t :: 25 <= t < 30 ==> Rounded(V, W, t)
  {
    assert V(30)
        == Sum(Rotl(V(29), 5), F(25, V(28), Rotl(V(27), 30), Rotl(V(26), 30)), Rotl(V(25), 30), K(25), W(25));
    assert V(31)
        == Sum(Rotl(V(30), 5), F(26, V(29), Rotl(V(28), 30), Rotl(V(27), 30)), Rotl(V(26), 30), K(26), W(26));
    assert V(32)
        == Sum(Rotl(V(31), 5), F(27, V(30), Rotl(V(29), 30), Rotl(V(28), 30)), Rotl(V(27), 30), K(27), W(27));
    assert V(33)
        == Sum(Rotl(V(32), 5), F(28, V(31), Rotl(V(30), 30), Rotl(V(29), 30)), Rotl(V(28), 30), K(28), W(28));
    assert V(34)
        == Sum(Rotl(V(33), 5), F(29, V(32), Rotl(V(31), 30), Rotl(V(30), 30)), Rotl(V(29), 30), K(29), W(29));
    hide Sum, Rotl, F, K, V, W;
    forall t | 25 <= t < 30 ensures Rounded(V, W, t) {
      assert t == 25 || t == 26 || t == 27 || t == 28 || t == 29;
    }
  }

  lemma RoundedFrom30()
    ensures forall t :: 30 <= t < 35 ==> Rounded(V, W, t)
  {
    assert V(35)
        == Sum(Rotl(V(34), 5), F(30, V(33), Rotl(V(32), 30), Rotl(V(31), 30)), Rotl(V(30), 30), K(30), W(30));
    assert V(36)
        == Sum(Rotl(V(35), 5), F(31, V(34), Rotl(V(33), 30), Rotl(V(32), 30)), Rotl(V(31), 30), K(31), W(31));
    assert V(37)
        == Sum(Rotl(V(36), 5), F(32, V(35), Rotl(V(34), 30), Rotl(V(33), 30)), Rotl(V(32), 30), K(32), W(32));
    assert V(38)
        == Sum(Rotl(V(37), 5), F(33, V(36), Rotl(V(35), 30), Rotl(V(34), 30)), Rotl(V(33), 30), K(33), W(33));
    assert V(39)
        == Sum(Rotl(V(38), 5), F(34, V(37), Rotl(V(36), 30), Rotl(V(35), 30)), Rotl(V(34), 30), K(34), W(34));
    hide Sum, Rotl, F, K, V, W;
    forall t | 30 <= t < 35 ensures Rounded(V, W, t) {
      assert t == 30 || t == 31 || t == 32 || t == 33 || t == 34;
    }
  }

  lemma RoundedFrom35()
    ensures forall t :: 35 <= t < 40 ==> Rounded(V, W, t)
  {
    assert V(40)
        == Sum(Rotl(V(39), 5), F(35, V(38), Rotl(V(37), 30), Rotl(V(36), 30)), Rotl(V(35), 30), K(35), W(35));
    assert V(41)
        == Sum(Rotl(V(40), 5), F(36, V(39), Rotl(V(38), 30), Rotl(V(37), 30)), Rotl(V(36), 30), K(36), W(36));
    assert V(42)
        == Sum(Rotl(V(41), 5), F(37, V(40), Rotl(V(39), 30), Rotl(V(38), 30)), Rotl(V(37), 30), K(37), W(37));
    assert V(43)
        == Sum(Rotl(V(42), 5), F(38, V(41), Rotl(V(40), 30), Rotl(V(39), 30)), Rotl(V(38), 30), K(38), W(38));
    assert V(44)
        == Sum(Rotl(V(43), 5), F(39, V(42), Rotl(V(41), 30), Rotl(V(40), 30)), Rotl(V(39), 30), K(39), W(39));
    hide Sum, Rotl, F, K, V, W;
    forall t | 35 <= t < 40 ensures Rounded(V, W, t) {
      assert t == 35 || t == 36 || t == 37 || t == 38 || t == 39;
    }
  }

  lemma RoundedFrom40()
    ensures forall t :: 40 <= t < 45 ==> Rounded(V, W, t)
  {
    assert V(45)
        == Sum(Rotl(V(44), 5), F(40, V(43), Rotl(V(42), 30), Rotl(V(41), 30)), Rotl(V(40), 30), K(40), W(40));
    assert V(46)
        == Sum(Rotl(V(45), 5), F(41, V(44), Rotl(V(43), 30), Rotl(V(42), 30)), Rotl(V(41), 30), K(41), W(41));
    assert V(47)
        == Sum(Rotl(V(46), 5), F(42, V(45), Rotl(V(44), 30), Rotl(V(43), 30)), Rotl(V(42), 30), K(42), W(42));
    assert V(48)
        == Sum(Rotl(V(47), 5), F(43, V(46), Rotl(V(45), 30), Rotl(V(44), 30)), Rotl(V(43), 30), K(43), W(43));
    assert V(49)
        == Sum(Rotl(V(48), 5), F(44, V(47), Rotl(V(46), 30), Rotl(V(45), 30)), Rotl(V(44), 30), K(44), W(44));
    hide Sum, Rotl, F, K, V, W;
    forall t | 40 <= t < 45 ensures Rounded(V, W, t) {
      assert t == 40 || t == 41 || t == 42 || t == 43 || t == 44;
    }
  }

  lemma RoundedFrom45()
    ensures forall t :: 45 <= t < 50 ==> Rounded(V, W, t)
  {
    assert V(50)
        == Sum(Rotl(V(49), 5), F(45, V(48), Rotl(V(47), 30), Rotl(V(46), 30)), Rotl(V(45), 30), K(45), W(45));
    assert V(51)
        == Sum(Rotl(V(50), 5), F(46, V(49), Rotl(V(48), 30), Rotl(V(47), 30)), Rotl(V(46), 30), K(46), W(46));
    assert V(52)
        == Sum(Rotl(V(51), 5), F(47, V(50), Rotl(V(49), 30), Rotl(V(48), 30)), Rotl(V(47), 30), K(47), W(47));
    assert V(53)
        == Sum(Rotl(V(52), 5), F(48, V(51), Rotl(V(50), 30), Rotl(V(49), 30)), Rotl(V(48), 30), K(48), W(48));
    assert V(54)
        == Sum(Rotl(V(53), 5), F(49, V(52), Rotl(V(51), 30), Rotl(V(50), 30)), Rotl(V(49), 30), K(49), W(49));
    hide Sum, Rotl, F, K, V, W;
    forall t | 45 <= t < 50 ensures Rounded(V, W, t) {
      assert t == 45 || t == 46 || t == 47 || t == 48 || t == 49;
    }
  }

  lemma RoundedFrom50()
    ensures forall t :: 50 <= t < 55 ==> Rounded(V, W, t)
  {
    assert V(55)
        == Sum(Rotl(V(54), 5), F(50, V(53), Rotl(V(52), 30), Rotl(V(51), 30)), Rotl(V(50), 30), K(50), W(50));
    assert V(56)
        == Sum(Rotl(V(55), 5), F(51, V(54), Rotl(V(53), 30), Rotl(V(52), 30)), Rotl(V(51), 30), K(51), W(51));
    assert V(57)
        == Sum(Rotl(V(56), 5), F(52, V(55), Rotl(V(54), 30), Rotl(V(53), 30)), Rotl(V(52), 30), K(52), W(52));
    assert V(58)
        == Sum(Rotl(V(57), 5), F(53, V(56), Rotl(V(55), 30), Rotl(V(54), 30)), Rotl(V(53), 30), K(53), W(53));
    assert V(59)
        == Sum(Rotl(V(58), 5), F(54, V(57), Rotl(V(56), 30), Rotl(V(55), 30)), Rotl(V(54), 30), K(54), W(54));
    hide Sum, Rotl, F, K, V, W;
    forall t | 50 <= t < 55 ensures Rounded(V, W, t) {
      assert t == 50 || t == 51 || t == 52 || t == 53 || t == 54;
    }
  }

  lemma RoundedFrom55()
    ensures forall t :: 55 <= t < 60 ==> Rounded(V, W, t)
  {
    assert V(60)
        == Sum(Rotl(V(59), 5), F(55, V(58), Rotl(V(57), 30), Rotl(V(56), 30)), Rotl(V(55), 30), K(55), W(55));
    assert V(61)
        == Sum(Rotl(V(60), 5), F(56, V(59), Rotl(V(58), 30), Rotl(V(57), 30)), Rotl(V(56), 30), K(56), W(56));
    assert V(62)
        == Sum(Rotl(V(61), 5), F(57, V(60), Rotl(V(59), 30), Rotl(V(58), 30)), Rotl(V(57), 30), K(57), W(57));
    assert V(63)
        == Sum(Rotl(V(62), 5), F(58, V(61), Rotl(V(60), 30), Rotl(V(59), 30)), Rotl(V(58), 30), K(58), W(58));
    assert V(64)
        == Sum(Rotl(V(63), 5), F(59, V(62), Rotl(V(61), 30), Rotl(V(60), 30)), Rotl(V(59), 30), K(59), W(59));
    hide Sum, Rotl, F, K, V, W;
    forall t | 55 <= t < 60 ensures Rounded(V, W, t) {
      assert t == 55 || t == 56 || t == 57 || t == 58 || t == 59;
    }
  }

  lemma RoundedFrom60()
    ensures forall t :: 60 <= t < 65 ==> Rounded(V, W, t)
  {
    assert V(65)
        == Sum(Rotl(V(64), 5), F(60, V(63), Rotl(V(62), 30), Rotl(V(61), 30)), Rotl(V(60), 30), K(60), W(60));
    assert V(66)
        == Sum(Rotl(V(65), 5), F(61, V(64), Rotl(V(63), 30), Rotl(V(62), 30)), Rotl(V(61), 30), K(61), W(61));
    assert V(67)
        == Sum(Rotl(V(66), 5), F(62, V(65), Rotl(V(64), 30), Rotl(V(63), 30)), Rotl(V(62), 30), K(62), W(62));
    assert V(68)
        == Sum(Rotl(V(67), 5), F(63, V(66), Rotl(V(65), 30), Rotl(V(64), 30)), Rotl(V(63), 30), K(63), W(63));
    assert V(69)
        == Sum(Rotl(V(68), 5), F(64, V(67), Rotl(V(66), 30), Rotl(V(65), 30)), Rotl(V(64), 30), K(64), W(64));
    hide Sum, Rotl, F, K, V, W;
    forall t | 60 <= t < 65 ensures Rounded(V, W, t) {
      assert t == 60 || t == 61 || t == 62 || t == 63 || t == 64;
    }
  }

  lemma RoundedFrom65()
    ensures forall t :: 65 <= t < 70 ==> Rounded(V, W, t)
  {
    assert V(70)
        == Sum(Rotl(V(69), 5), F(65, V(68), Rotl(V(67), 30), Rotl(V(66), 30)), Rotl(V(65), 30), K(65), W(65));
    assert V(71)
        == Sum(Rotl(V(70), 5), F(66, V(69), Rotl(V(68), 30), Rotl(V(67), 30)), Rotl(V(66), 30), K(66), W(66));
    assert V(72)
        == Sum(Rotl(V(71), 5), F(67, V(70), Rotl(V(69), 30), Rotl(V(68), 30)), Rotl(V(67), 30), K(67), W(67));
    assert V(73)
        == Sum(Rotl(V(72), 5), F(68, V(71), Rotl(V(70), 30), Rotl(V(69), 30)), Rotl(V(68), 30), K(68), W(68));
    assert V(74)
        == Sum(Rotl(V(73), 5), F(69, V(72), Rotl(V(71), 30), Rotl(V(70), 30)), Rotl(V(69), 30), K(69), W(69));
    hide Sum, Rotl, F, K, V, W;
    forall t | 65 <= t < 70 ensures Rounded(V, W, t) {
      assert t == 65 || t == 66 || t == 67 || t == 68 || t == 69;
    }
  }

  lemma RoundedFrom70()
    ensures forall t :: 70 <= t < 75 ==> Rounded(V, W, t)
  {
    assert V(75)
        == Sum(Rotl(V(74), 5), F(70, V(73), Rotl(V(72), 30), Rotl(V(71), 30)), Rotl(V(70), 30), K(70), W(70));
    assert V(76)
        == Sum(Rotl(V(75), 5), F(71, V(74), Rotl(V(73), 30), Rotl(V(72), 30)), Rotl(V(71), 30), K(71), W(71));
    assert V(77)
        == Sum(Rotl(V(76), 5), F(72, V(75), Rotl(V(74), 30), Rotl(V(73), 30)), Rotl(V(72), 30), K(72), W(72));
    assert V(78)
        == Sum(Rotl(V(77), 5), F(73, V(76), Rotl(V(75), 30), Rotl(V(74), 30)), Rotl(V(73), 30), K(73), W(73));
    assert V(79)
        == Sum(Rotl(V(78), 5), F(74, V(77), Rotl(V(76), 30), Rotl(V(75), 30)), Rotl(V(74), 30), K(74), W(74));
    hide Sum, Rotl, F, K, V, W;
    forall t | 70 <= t < 75 ensures Rounded(V, W, t) {
      assert t == 70 || t == 71 || t == 72 || t == 73 || t == 74;
    }
  }

  lemma RoundedFrom75()
    ensures forall t :: 75 <= t < 80 ==> Rounded(V, W, t)
  {
    assert V(80)
        == Sum(Rotl(V(79), 5), F(75, V(78), Rotl(V(77), 30), Rotl(V(76), 30)), Rotl(V(75), 30), K(75), W(75));
    assert V(81)
        == Sum(Rotl(V(80), 5), F(76, V(79), Rotl(V(78), 30), Rotl(V(77), 30)), Rotl(V(76), 30), K(76), W(76));
    assert V(82)
        == Sum(Rotl(V(81), 5), F(77, V(80), Rotl(V(79), 30), Rotl(V(78), 30)), Rotl(V(77), 30), K(77), W(77));
    assert V(83)
        == Sum(Rotl(V(82), 5), F(78, V(81), Rotl(V(80), 30), Rotl(V(79), 30)), Rotl(V(78), 30), K(78), W(78));
    assert V(84)
        == Sum(Rotl(V(83), 5), F(79, V(82), Rotl(V(81), 30), Rotl(V(80), 30)), Rotl(V(79), 30), K(79), W(79));
    hide Sum, Rotl, F, K, V, W;
    forall t | 75 <= t < 80 ensures Rounded(V, W, t) {
      assert t == 75 || t == 76 || t == 77 || t == 78 || t == 79;
    }
  }

  /** Every word and every round. */
  lemma Holds()
    ensures Traced(V, W)
  {
    hide Mixed, Rounded;
    MixedFrom16(); MixedFrom20(); MixedFrom24(); MixedFrom28();
    MixedFrom32(); MixedFrom36(); MixedFrom40(); MixedFrom44();
    MixedFrom48(); MixedFrom52(); MixedFrom56(); MixedFrom60();
    MixedFrom64(); MixedFrom68(); MixedFrom72(); MixedFrom76();
    RoundedFrom0(); RoundedFrom5(); RoundedFrom10(); RoundedFrom15();
    RoundedFrom20(); RoundedFrom25(); RoundedFrom30(); RoundedFrom35();
    RoundedFrom40(); RoundedFrom45(); RoundedFrom50(); RoundedFrom55();
    RoundedFrom60(); RoundedFrom65(); RoundedFrom70(); RoundedFrom75();
  }

  const ABC: seq<byte> := [0x61, 0x62, 0x63]

  lemma PaddedLength()
    ensures |Pad(ABC)| == 64 && Pad(ABC) == [0x61, 0x62, 0x63, 0x80] + seq(52, _ => 0) + Bytes64(24)
    ensures BitCount(3) == 24 && ZeroBytes(3) == 52
  {
    hide Bytes64;
    assert Pad(ABC) == ABC + ([0x80] + seq(52, _ => 0) + Bytes64(24));
  }

  lemma LengthField()
    ensures Bytes64(24) == [0, 0, 0, 0, 0, 0, 0, 24]
  {
    assert Quotient(24, 1) == 0;
    forall i: nat | 1 <= i < 8 ensures Quotient(24, i) == 0 { NothingLeft(i); }
  }

  lemma {:induction false} NothingLeft(i: nat)
    requires i >= 1
    ensures Quotient(24, i) == 0
  {
    if i > 1 { NothingLeft(i - 1); }
  }

  lemma Words(block: seq<byte>)
    requires block == [0x61, 0x62, 0x63, 0x80] + seq(52, _ => 0) + [0, 0, 0, 0, 0, 0, 0, 24]
    ensures forall i :: 0 <= i < 16 ==> BlockWord(block, i) == W(i)
  {
    assert BigEndian(0x61, 0x62, 0x63, 0x80) == W(0) && BigEndian(0, 0, 0, 24) == W(15);
    assert BigEndian(0, 0, 0, 0) == 0;
    assert W(1) == W(2) == W(3) == W(4) == W(5) == W(6) == W(7) == 0;
    assert W(8) == W(9) == W(10) == W(11) == W(12) == W(13) == W(14) == 0;
    hide BigEndian;
    assert block[0] == 0x61 && block[1] == 0x62 && block[2] == 0x63 && block[3] == 0x80;
    assert forall j :: 4 <= j < 63 ==> block[j] == 0;
    forall i | 0 <= i < 16 ensures BlockWord(block, i) == W(i) {
      if i == 15 {
        assert block[63] == 24;
      } else if i > 0 {
        assert i <= 7 || i >= 8;
        ZeroWord(i);
      }
    }
  }

  lemma ZeroWord(i: nat)
    requires 1 <= i < 15
    ensures W(i) == 0
  {
  }

  lemma Start()
    ensures Variables(V, 0) == INITIAL
  {
  }

  lemma Finish()
    ensures HashBytes(Plus(INITIAL, Variables(V, 80)))
         == [0xA9, 0x99, 0x3E, 0x36, 0x47, 0x06, 0x81, 0x6A, 0xBA, 0x3E, 0x25, 0x71, 0x78, 0x50, 0xC2, 0x6C,
             0x9C, 0xD0, 0xD8, 0x9D]
  {
    var v := Variables(V, 80);
    assert Plus(INITIAL, v) == Hash(0xA9993E36, 0x4706816A, 0xBA3E2571, 0x7850C26C, 0x9CD0D89D);
    hide Plus, V;
  }

  lemma OneBlock(block: seq<byte>)
    requires block == [0x61, 0x62, 0x63, 0x80] + seq(52, _ => 0) + [0, 0, 0, 0, 0, 0, 0, 24]
    ensures Compress(INITIAL, block) == Plus(INITIAL, Variables(V, 80))
  {
    hide Rounds, Plus, V, W, Traced, BlockWord;
    Words(block);
    Holds();
    Start();
    RoundsAre(V, W, block, 80);
  }

  lemma SingleBlock(p: seq<byte>)
    requires |p| == 64
    ensures HashBlocks(p, 1) == Compress(INITIAL, p)
  {
    hide Compress;
    assert p[0..64] == p && HashBlocks(p, 0) == INITIAL;
  }

  /** SHA-1("abc") = a9993e36 4706816a ba3e2571 7850c26c 9cd0d89d. */
  lemma DigestOfAbc()
    ensures Digest(ABC)
         == [0xA9, 0x99, 0x3E, 0x36, 0x47, 0x06, 0x81, 0x6A, 0xBA, 0x3E, 0x25, 0x71, 0x78, 0x50, 0xC2, 0x6C,
             0x9C, 0xD0, 0xD8, 0x9D]
  {
    hide Compress, HashBytes, Plus, Pad, Bytes64, Variables, V, ABC;
    PaddedLength();
    LengthField();
    SingleBlock(Pad(ABC));
    OneBlock(Pad(ABC));
    Finish();
  }
}
