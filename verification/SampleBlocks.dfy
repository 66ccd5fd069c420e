/** The trace of the first block of the padded sample key and GUID of section 1.3 of RFC 6455. */
module SampleFirstBlock {
  import opened Basics
  import opened Sha1Spec
  import opened DigestTrace

  /** The message schedule. */
  function W(t: nat): word {
    if t < 10 then
      (match t case 0 => 0x6447686C case 1 => 0x49484E68 case 2 => 0x62584273 case 3 => 0x5A534275
       case 4 => 0x6232356A case 5 => 0x5A513D3D case 6 => 0x32353845 case 7 => 0x41464135
       case 8 => 0x2D453931 case _ => 0x342D3437)
    else if t < 20 then
      (match t case 10 => 0x44412D39 case 11 => 0x3543412D case 12 => 0x43354142 case 13 => 0x30444338
       case 14 => 0x35423131 case 15 => 0x80000000 case 16 => 0x363CA02C case 17 => 0x24E81236
       case 18 => 0x8856B441 case _ => 0x06FB3C92)
    else if t < 30 then
      (match t case 20 => 0x6FB4BCB6 case 21 => 0x460B16E3 case 22 => 0x599219AE case 23 => 0x35BF9369
       case 24 => 0x3267458E case 25 => 0xF828FD04 case 26 => 0x753A96A7 case 27 => 0x6336F612
       case 28 => 0xC3D66383 case _ => 0x06EB86F9)
    else if t < 40 then
      (match t case 30 => 0x73B4FD42 case 31 => 0xA503C5B8 case 32 => 0x15CDAE35 case 33 => 0x531E5DC5
       case 34 => 0x6FB6B7D0 case 35 => 0x6C16E4AC case 36 => 0x4DDD36BD case 37 => 0x35D36946
       case 38 => 0xE8AE8B9C case _ => 0x4A933AD0)
    else if t < 50 then
      (match t case 40 => 0xCE8628B4 case 41 => 0x415DBA9E case 42 => 0x2792F049 case 43 => 0x8E9B79E7
       case 44 => 0x79C425C5 case 45 => 0x6353B49D case 46 => 0x00994218 case 47 => 0x8A950ED1
       case 48 => 0xAF5D0B99 case _ => 0xFD9883DE)
    else if t < 60 then
      (match t case 50 => 0x1ED8FFEB case 51 => 0xF007FF28 case 52 => 0x425E3674 case 53 => 0x059631C0
       case 54 => 0xAD6C3C31 case 55 => 0x860B71D7 case 56 => 0x87BFC548 case 57 => 0x3E64F92D
       case 58 => 0x8D0AB761 case _ => 0x34E1EE35)
    else if t < 70 then
      (match t case 60 => 0x0ACF5108 case 61 => 0xC2B479DA case 62 => 0x6C93370A case 63 => 0xF7935BA1
       case 64 => 0xE91C91C1 case 65 => 0xBED165A2 case 66 => 0x4C3E4ABE case 67 => 0x50D96238
       case 68 => 0xB6587DDE case _ => 0x1A2EE6E6)
    else
      (match t case 70 => 0x2D335896 case 71 => 0xF3495D0B case 72 => 0xF30E0A1D case 73 => 0x32CE5459
       case 74 => 0x7165E3B8 case 75 => 0xAB05FF94 case 76 => 0xC5949F0B case 77 => 0xBCD84E4A
       case 78 => 0x07720392 case _ => 0xFF3FF806)
  }

  /** The values of the first working variable: four of old, the one before the first round, and one for each round. */
  function V(t: nat): word {
    if t < 10 then
      (match t case 0 => 0x0F4B87C3 case 1 => 0x40C951D8 case 2 => 0x62EB73FA case 3 => 0xEFCDAB89
       case 4 => 0x67452301 case 5 => 0x03FC011F case 6 => 0x2F793F55 case 7 => 0xBE90EE8F
       case 8 => 0x53E039AC case _ => 0xDD8C7C12)
    else if t < 20 then
      (match t case 10 => 0x7320B969 case 11 => 0x73553E84 case 12 => 0x2E0CE601 case 13 => 0x32BEB05A
       case 14 => 0xFAAD2675 case 15 => 0x5FF4238C case 16 => 0x34CEB986 case 17 => 0x61BDB2BF
       case 18 => 0xAE1A096E case _ => 0xE922CC9D)
    else if t < 30 then
      (match t case 20 => 0xA004C468 case 21 => 0xD7DAF575 case 22 => 0x7EBB296B case 23 => 0x8DC510B6
       case 24 => 0x091AB97C case 25 => 0x518470A3 case 26 => 0xD12F0B56 case 27 => 0xBEAFD554
       case 28 => 0x250E26EF case _ => 0x23D1C91B)
    else if t < 40 then
      (match t case 30 => 0x748B39A0 case 31 => 0xEF012F20 case 32 => 0x571F7D82 case 33 => 0x1ABB1C37
       case 34 => 0x081B63E5 case 35 => 0xB7DABC8B case 36 => 0xA6680A1F case 37 => 0x1AE360A9
       case 38 => 0xEEABA35A case _ => 0x149BB4D3)
    else if t < 50 then
      (match t case 40 => 0x9DE793C8 case 41 => 0x4CCD2227 case 42 => 0x68760824 case 43 => 0xD0869081
       case 44 => 0x2BA2C83E case 45 => 0xCB8C52D0 case 46 => 0x4F589A44 case 47 => 0x868829B7
       case 48 => 0x6DC6A3D7 case _ => 0x5F5F3452)
    else if t < 60 then
      (match t case 50 => 0x72FF334D case 51 => 0xDEE4B7A8 case 52 => 0xABE1748A case 53 => 0x7510D04F
       case 54 => 0x065F8486 case 55 => 0x0E5D77C4 case 56 => 0x10E7F671 case 57 => 0x26C69395
       case 58 => 0x4C608AC4 case _ => 0x50C9104C)
    else if t < 70 then
      (match t case 60 => 0x7E1242F2 case 61 => 0x6EF6FEF4 case 62 => 0x0C247C2E case 63 => 0xD284F163
       case 64 => 0x4872D85A case 65 => 0xCD4200B8 case 66 => 0x90F00D8F case 67 => 0x840054D3
       case 68 => 0x685E2FF6 case _ => 0xA4CEE018)
    else if t < 80 then
      (match t case 70 => 0xC3C2E45B case 71 => 0x53131A40 case 72 => 0xCF8658EC case 73 => 0x966E049A
       case 74 => 0x07381B7E case 75 => 0x80D59773 case 76 => 0x7E65E044 case 77 => 0x628E7B47
       case 78 => 0x143A8388 case _ => 0xE20983F9)
    else
      (match t case 80 => 0x69CF0BCA case 81 => 0x29171009 case 82 => 0x97047BEC case 83 => 0x835995E1
       case _ => 0xF48A5426)
  }

  lemma MixedFrom16()
    ensures forall t :: 16 <= t < 20 ==> Mixed(W, t)
  {
    assert Mix(W(13), W(8), W(2), W(0)) == W(16) && Mix(W(14), W(9), W(3), W(1)) == W(17);
    assert Mix(W(15), W(10), W(4), W(2)) == W(18) && Mix(W(16), W(11), W(5), W(3)) == W(19);
    hide Mix, W;
    forall t | 16 <= t < 20 ensures Mixed(W, t) {
      assert t == 16 || t == 17 || t == 18 || t == 19;
    }
  }

  lemma MixedFrom20()
    ensures forall t :: 20 <= t < 24 ==> Mixed(W, t)
  {
    assert Mix(W(17), W(12), W(6), W(4)) == W(20) && Mix(W(18), W(13), W(7), W(5)) == W(21);
    assert Mix(W(19), W(14), W(8), W(6)) == W(22) && Mix(W(20), W(15), W(9), W(7)) == W(23);
    hide Mix, W;
    forall t | 20 <= t < 24 ensures Mixed(W, t) {
      assert t == 20 || t == 21 || t == 22 || t == 23;
    }
  }

  lemma MixedFrom24()
    ensures forall t :: 24 <= t < 28 ==> Mixed(W, t)
  {
    assert Mix(W(21), W(16), W(10), W(8)) == W(24) && Mix(W(22), W(17), W(11), W(9)) == W(25);
    assert Mix(W(23), W(18), W(12), W(10)) == W(26) && Mix(W(24), W(19), W(13), W(11)) == W(27);
    hide Mix, W;
    forall t | 24 <= t < 28 ensures Mixed(W, t) {
      assert t == 24 || t == 25 || t == 26 || t == 27;
    }
  }

  lemma MixedFrom28()
    ensures forall t :: 28 <= t < 32 ==> Mixed(W, t)
  {
    assert Mix(W(25), W(20), W(14), W(12)) == W(28) && Mix(W(26), W(21), W(15), W(13)) == W(29);
    assert Mix(W(27), W(22), W(16), W(14)) == W(30) && Mix(W(28), W(23), W(17), W(15)) == W(31);
    hide Mix, W;
    forall t | 28 <= t < 32 ensures Mixed(W, t) {
      assert t == 28 || t == 29 || t == 30 || t == 31;
    }
  }

  lemma MixedFrom32()
    ensures forall t :: 32 <= t < 36 ==> Mixed(W, t)
  {
    assert Mix(W(29), W(24), W(18), W(16)) == W(32) && Mix(W(30), W(25), W(19), W(17)) == W(33);
    assert Mix(W(31), W(26), W(20), W(18)) == W(34) && Mix(W(32), W(27), W(21), W(19)) == W(35);
    hide Mix, W;
    forall t | 32 <= t < 36 ensures Mixed(W, t) {
      assert t == 32 || t == 33 || t == 34 || t == 35;
    }
  }

  lemma MixedFrom36()
    ensures forall t :: 36 <= t < 40 ==> Mixed(W, t)
  {
    assert Mix(W(33), W(28), W(22), W(20)) == W(36) && Mix(W(34), W(29), W(23), W(21)) == W(37);
    assert Mix(W(35), W(30), W(24), W(22)) == W(38) && Mix(W(36), W(31), W(25), W(23)) == W(39);
    hide Mix, W;
    forall t | 36 <= t < 40 ensures Mixed(W, t) {
      assert t == 36 || t == 37 || t == 38 || t == 39;
    }
  }

  lemma MixedFrom40()
    ensures forall t :: 40 <= t < 44 ==> Mixed(W, t)
  {
    assert Mix(W(37), W(32), W(26), W(24)) == W(40) && Mix(W(38), W(33), W(27), W(25)) == W(41);
    assert Mix(W(39), W(34), W(28), W(26)) == W(42) && Mix(W(40), W(35), W(29), W(27)) == W(43);
    hide Mix, W;
    forall t | 40 <= t < 44 ensures Mixed(W, t) {
      assert t == 40 || t == 41 || t == 42 || t == 43;
    }
  }

  lemma MixedFrom44()
    ensures forall t :: 44 <= t < 48 ==> Mixed(W, t)
  {
    assert Mix(W(41), W(36), W(30), W(28)) == W(44) && Mix(W(42), W(37), W(31), W(29)) == W(45);
    assert Mix(W(43), W(38), W(32), W(30)) == W(46) && Mix(W(44), W(39), W(33), W(31)) == W(47);
    hide Mix, W;
    forall t | 44 <= t < 48 ensures Mixed(W, t) {
      assert t == 44 || t == 45 || t == 46 || t == 47;
    }
  }

  lemma MixedFrom48()
    ensures forall t :: 48 <= t < 52 ==> Mixed(W, t)
  {
    assert Mix(W(45), W(40), W(34), W(32)) == W(48) && Mix(W(46), W(41), W(35), W(33)) == W(49);
    assert Mix(W(47), W(42), W(36), W(34)) == W(50) && Mix(W(48), W(43), W(37), W(35)) == W(51);
    hide Mix, W;
    forall t | 48 <= t < 52 ensures Mixed(W, t) {
      assert t == 48 || t == 49 || t == 50 || t == 51;
    }
  }

  lemma MixedFrom52()
    ensures forall t :: 52 <= t < 56 ==> Mixed(W, t)
  {
    assert Mix(W(49), W(44), W(38), W(36)) == W(52) && Mix(W(50), W(45), W(39), W(37)) == W(53);
    assert Mix(W(51), W(46), W(40), W(38)) == W(54) && Mix(W(52), W(47), W(41), W(39)) == W(55);
    hide Mix, W;
    forall t | 52 <= t < 56 ensures Mixed(W, t) {
      assert t == 52 || t == 53 || t == 54 || t == 55;
    }
  }

  lemma MixedFrom56()
    ensures forall t :: 56 <= t < 60 ==> Mixed(W, t)
  {
    assert Mix(W(53), W(48), W(42), W(40)) == W(56) && Mix(W(54), W(49), W(43), W(41)) == W(57);
    assert Mix(W(55), W(50), W(44), W(42)) == W(58) && Mix(W(56), W(51), W(45), W(43)) == W(59);
    hide Mix, W;
    forall t | 56 <= t < 60 ensures Mixed(W, t) {
      assert t == 56 || t == 57 || t == 58 || t == 59;
    }
  }

  lemma MixedFrom60()
    ensures forall t :: 60 <= t < 64 ==> Mixed(W, t)
  {
    assert Mix(W(57), W(52), W(46), W(44)) == W(60) && Mix(W(58), W(53), W(47), W(45)) == W(61);
    assert Mix(W(59), W(54), W(48), W(46)) == W(62) && Mix(W(60), W(55), W(49), W(47)) == W(63);
    hide Mix, W;
    forall t | 60 <= t < 64 ensures Mixed(W, t) {
      assert t == 60 || t == 61 || t == 62 || t == 63;
    }
  }

  lemma MixedFrom64()
    ensures forall t :: 64 <= t < 68 ==> Mixed(W, t)
  {
    assert Mix(W(61), W(56), W(50), W(48)) == W(64) && Mix(W(62), W(57), W(51), W(49)) == W(65);
    assert Mix(W(63), W(58), W(52), W(50)) == W(66) && Mix(W(64), W(59), W(53), W(51)) == W(67);
    hide Mix, W;
    forall t | 64 <= t < 68 ensures Mixed(W, t) {
      assert t == 64 || t == 65 || t == 66 || t == 67;
    }
  }

  lemma MixedFrom68()
    ensures forall t :: 68 <= t < 72 ==> Mixed(W, t)
  {
    assert Mix(W(65), W(60), W(54), W(52)) == W(68) && Mix(W(66), W(61), W(55), W(53)) == W(69);
    assert Mix(W(67), W(62), W(56), W(54)) == W(70) && Mix(W(68), W(63), W(57), W(55)) == W(71);
    hide Mix, W;
    forall t | 68 <= t < 72 ensures Mixed(W, t) {
      assert t == 68 || t == 69 || t == 70 || t == 71;
    }
  }

  lemma MixedFrom72()
    ensures forall t :: 72 <= t < 76 ==> Mixed(W, t)
  {
    assert Mix(W(69), W(64), W(58), W(56)) == W(72) && Mix(W(70), W(65), W(59), W(57)) == W(73);
    assert Mix(W(71), W(66), W(60), W(58)) == W(74) && Mix(W(72), W(67), W(61), W(59)) == W(75);
    hide Mix, W;
    forall t | 72 <= t < 76 ensures Mixed(W, t) {
      assert t == 72 || t == 73 || t == 74 || t == 75;
    }
  }

  lemma MixedFrom76()
    ensures forall t :: 76 <= t < 80 ==> Mixed(W, t)
  {
    assert Mix(W(73), W(68), W(62), W(60)) == W(76) && Mix(W(74), W(69), W(63), W(61)) == W(77);
    assert Mix(W(75), W(70), W(64), W(62)) == W(78) && Mix(W(76), W(71), W(65), W(63)) == W(79);
    hide Mix, W;
    forall t | 76 <= t < 80 ensures Mixed(W, t) {
      assert t == 76 || t == 77 || t == 78 || t == 79;
    }
  }

  lemma RoundedFrom0()
    ensures forall t :: 0 <= t < 5 ==> Rounded(V, W, t)
  {
    assert V(5)
        == Sum(Rotl(V(4), 5), F(0, V(3), Rotl(V(2), 30), Rotl(V(1), 30)), Rotl(V(0), 30), K(0), W(0));
    assert V(6)
        == Sum(Rotl(V(5), 5), F(1, V(4), Rotl(V(3), 30), Rotl(V(2), 30)), Rotl(V(1), 30), K(1), W(1));
    assert V(7)
        == Sum(Rotl(V(6), 5), F(2, V(5), Rotl(V(4), 30), Rotl(V(3), 30)), Rotl(V(2), 30), K(2), W(2));
    assert V(8)
        == Sum(Rotl(V(7), 5), F(3, V(6), Rotl(V(5), 30), Rotl(V(4), 30)), Rotl(V(3), 30), K(3), W(3));
    assert V(9)
        == Sum(Rotl(V(8), 5), F(4, V(7), Rotl(V(6), 30), Rotl(V(5), 30)), Rotl(V(4), 30), K(4), W(4));
    hide Sum, Rotl, F, K, V, W;
    forall t | 0 <= t < 5 ensures Rounded(V, W, t) {
      assert t == 0 || t == 1 || t == 2 || t == 3 || t == 4;
    }
  }

  lemma RoundedFrom5()
    ensures forall t :: 5 <= t < 10 ==> Rounded(V, W, t)
  {
    assert V(10)
        == Sum(Rotl(V(9), 5), F(5, V(8), Rotl(V(7), 30), Rotl(V(6), 30)), Rotl(V(5), 30), K(5), W(5));
    assert V(11)
        == Sum(Rotl(V(10), 5), F(6, V(9), Rotl(V(8), 30), Rotl(V(7), 30)), Rotl(V(6), 30), K(6), W(6));
    assert V(12)
        == Sum(Rotl(V(11), 5), F(7, V(10), Rotl(V(9), 30), Rotl(V(8), 30)), Rotl(V(7), 30), K(7), W(7));
    assert V(13)
        == Sum(Rotl(V(12), 5), F(8, V(11), Rotl(V(10), 30), Rotl(V(9), 30)), Rotl(V(8), 30), K(8), W(8));
    assert V(14)
        == Sum(Rotl(V(13), 5), F(9, V(12), Rotl(V(11), 30), Rotl(V(10), 30)), Rotl(V(9), 30), K(9), W(9));
    hide Sum, Rotl, F, K, V, W;
    forall t | 5 <= t < 10 ensures Rounded(V, W, t) {
      assert t == 5 || t == 6 || t == 7 || t == 8 || t == 9;
    }
  }

  lemma RoundedFrom10()
    ensures forall t :: 10 <= t < 15 ==> Rounded(V, W, t)
  {
    assert V(15)
        == Sum(Rotl(V(14), 5), F(10, V(13), Rotl(V(12), 30), Rotl(V(11), 30)), Rotl(V(10), 30), K(10), W(10));
    assert V(16)
        == Sum(Rotl(V(15), 5), F(11, V(14), Rotl(V(13), 30), Rotl(V(12), 30)), Rotl(V(11), 30), K(11), W(11));
    assert V(17)
        == Sum(Rotl(V(16), 5), F(12, V(15), Rotl(V(14), 30), Rotl(V(13), 30)), Rotl(V(12), 30), K(12), W(12));
    assert V(18)
        == Sum(Rotl(V(17), 5), F(13, V(16), Rotl(V(15), 30), Rotl(V(14), 30)), Rotl(V(13), 30), K(13), W(13));
    assert V(19)
        == Sum(Rotl(V(18), 5), F(14, V(17), Rotl(V(16), 30), Rotl(V(15), 30)), Rotl(V(14), 30), K(14), W(14));
    hide Sum, Rotl, F, K, V, W;
    forall t | 10 <= t < 15 ensures Rounded(V, W, t) {
      assert t == 10 || t == 11 || t == 12 || t == 13 || t == 14;
    }
  }

  lemma RoundedFrom15()
    ensures forall t :: 15 <= t < 20 ==> Rounded(V, W, t)
  {
    assert V(20)
        == Sum(Rotl(V(19), 5), F(15, V(18), Rotl(V(17), 30), Rotl(V(16), 30)), Rotl(V(15), 30), K(15), W(15));
    assert V(21)
        == Sum(Rotl(V(20), 5), F(16, V(19), Rotl(V(18), 30), Rotl(V(17), 30)), Rotl(V(16), 30), K(16), W(16));
    assert V(22)
        == Sum(Rotl(V(21), 5), F(17, V(20), Rotl(V(19), 30), Rotl(V(18), 30)), Rotl(V(17), 30), K(17), W(17));
    assert V(23)
        == Sum(Rotl(V(22), 5), F(18, V(21), Rotl(V(20), 30), Rotl(V(19), 30)), Rotl(V(18), 30), K(18), W(18));
    assert V(24)
        == Sum(Rotl(V(23), 5), F(19, V(22), Rotl(V(21), 30), Rotl(V(20), 30)), Rotl(V(19), 30), K(19), W(19));
    hide Sum, Rotl, F, K, V, W;
    forall t | 15 <= t < 20 ensures Rounded(V, W, t) {
      assert t == 15 || t == 16 || t == 17 || t == 18 || t == 19;
    }
  }

  lemma RoundedFrom20()
    ensures forall t :: 20 <= t < 25 ==> Rounded(V, W, t)
  {
    assert V(25)
        == Sum(Rotl(V(24), 5), F(20, V(23), Rotl(V(22), 30), Rotl(V(21), 30)), Rotl(V(20), 30), K(20), W(20));
    assert V(26)
        == Sum(Rotl(V(25), 5), F(21, V(24), Rotl(V(23), 30), Rotl(V(22), 30)), Rotl(V(21), 30), K(21), W(21));
    assert V(27)
        == Sum(Rotl(V(26), 5), F(22, V(25), Rotl(V(24), 30), Rotl(V(23), 30)), Rotl(V(22), 30), K(22), W(22));
    assert V(28)
        == Sum(Rotl(V(27), 5), F(23, V(26), Rotl(V(25), 30), Rotl(V(24), 30)), Rotl(V(23), 30), K(23), W(23));
    assert V(29)
        == Sum(Rotl(V(28), 5), F(24, V(27), Rotl(V(26), 30), Rotl(V(25), 30)), Rotl(V(24), 30), K(24), W(24));
    hide Sum, Rotl, F, K, V, W;
    forall t | 20 <= t < 25 ensures Rounded(V, W, t) {
      assert t == 20 || t == 21 || t == 22 || t == 23 || t == 24;
    }
  }

  lemma RoundedFrom25()
    ensures forall t :: 25 <= t < 30 ==> Rounded(V, W, t)
  {
    assert V(30)
        == Sum(Rotl(V(29), 5), F(25, V(28), Rotl(V(27), 30), Rotl(V(26), 30)), Rotl(V(25), 30), K(25), W(25));
    assert V(31)
        == Sum(Rotl(V(30), 5), F(26, V(29), Rotl(V(28), 30), Rotl(V(27), 30)), Rotl(V(26), 30), K(26), W(26));
    assert V(32)
        == Sum(Rotl(V(31), 5), F(27, V(30), Rotl(V(29), 30), Rotl(V(28), 30)), Rotl(V(27), 30), K(27), W(27));
    assert V(33)
        == Sum(Rotl(V(32), 5), F(28, V(31), Rotl(V(30), 30), Rotl(V(29), 30)), Rotl(V(28), 30), K(28), W(28));
    assert V(34)
        == Sum(Rotl(V(33), 5), F(29, V(32), Rotl(V(31), 30), Rotl(V(30), 30)), Rotl(V(29), 30), K(29), W(29));
    hide Sum, Rotl, F, K, V, W;
    forall t | 25 <= t < 30 ensures Rounded(V, W, t) {
      assert t == 25 || t == 26 || t == 27 || t == 28 || t == 29;
    }
  }

  lemma RoundedFrom30()
    ensures forall t :: 30 <= t < 35 ==> Rounded(V, W, t)
  {
    assert V(35)
        == Sum(Rotl(V(34), 5), F(30, V(33), Rotl(V(32), 30), Rotl(V(31), 30)), Rotl(V(30), 30), K(30), W(30));
    assert V(36)
        == Sum(Rotl(V(35), 5), F(31, V(34), Rotl(V(33), 30), Rotl(V(32), 30)), Rotl(V(31), 30), K(31), W(31));
    assert V(37)
        == Sum(Rotl(V(36), 5), F(32, V(35), Rotl(V(34), 30), Rotl(V(33), 30)), Rotl(V(32), 30), K(32), W(32));
    assert V(38)
        == Sum(Rotl(V(37), 5), F(33, V(36), Rotl(V(35), 30), Rotl(V(34), 30)), Rotl(V(33), 30), K(33), W(33));
    assert V(39)
        == Sum(Rotl(V(38), 5), F(34, V(37), Rotl(V(36), 30), Rotl(V(35), 30)), Rotl(V(34), 30), K(34), W(34));
    hide Sum, Rotl, F, K, V, W;
    forall t | 30 <= t < 35 ensures Rounded(V, W, t) {
      assert t == 30 || t == 31 || t == 32 || t == 33 || t == 34;
    }
  }

  lemma RoundedFrom35()
    ensures forall t :: 35 <= t < 40 ==> Rounded(V, W, t)
  {
    assert V(40)
        == Sum(Rotl(V(39), 5), F(35, V(38), Rotl(V(37), 30), Rotl(V(36), 30)), Rotl(V(35), 30), K(35), W(35));
    assert V(41)
        == Sum(Rotl(V(40), 5), F(36, V(39), Rotl(V(38), 30), Rotl(V(37), 30)), Rotl(V(36), 30), K(36), W(36));
    assert V(42)
        == Sum(Rotl(V(41), 5), F(37, V(40), Rotl(V(39), 30), Rotl(V(38), 30)), Rotl(V(37), 30), K(37), W(37));
    assert V(43)
        == Sum(Rotl(V(42), 5), F(38, V(41), Rotl(V(40), 30), Rotl(V(39), 30)), Rotl(V(38), 30), K(38), W(38));
    assert V(44)
        == Sum(Rotl(V(43), 5), F(39, V(42), Rotl(V(41), 30), Rotl(V(40), 30)), Rotl(V(39), 30), K(39), W(39));
    hide Sum, Rotl, F, K, V, W;
    forall t | 35 <= t < 40 ensures Rounded(V, W, t) {
      assert t == 35 || t == 36 || t == 37 || t == 38 || t == 39;
    }
  }

  lemma RoundedFrom40()
    ensures forall t :: 40 <= t < 45 ==> Rounded(V, W, t)
  {
    assert V(45)
        == Sum(Rotl(V(44), 5), F(40, V(43), Rotl(V(42), 30), Rotl(V(41), 30)), Rotl(V(40), 30), K(40), W(40));
    assert V(46)
        == Sum(Rotl(V(45), 5), F(41, V(44), Rotl(V(43), 30), Rotl(V(42), 30)), Rotl(V(41), 30), K(41), W(41));
    assert V(47)
        == Sum(Rotl(V(46), 5), F(42, V(45), Rotl(V(44), 30), Rotl(V(43), 30)), Rotl(V(42), 30), K(42), W(42));
    assert V(48)
        == Sum(Rotl(V(47), 5), F(43, V(46), Rotl(V(45), 30), Rotl(V(44), 30)), Rotl(V(43), 30), K(43), W(43));
    assert V(49)
        == Sum(Rotl(V(48), 5), F(44, V(47), Rotl(V(46), 30), Rotl(V(45), 30)), Rotl(V(44), 30), K(44), W(44));
    hide Sum, Rotl, F, K, V, W;
    forall t | 40 <= t < 45 ensures Rounded(V, W, t) {
      assert t == 40 || t == 41 || t == 42 || t == 43 || t == 44;
    }
  }

  lemma RoundedFrom45()
    ensures forall t :: 45 <= t < 50 ==> Rounded(V, W, t)
  {
    assert V(50)
        == Sum(Rotl(V(49), 5), F(45, V(48), Rotl(V(47), 30), Rotl(V(46), 30)), Rotl(V(45), 30), K(45), W(45));
    assert V(51)
        == Sum(Rotl(V(50), 5), F(46, V(49), Rotl(V(48), 30), Rotl(V(47), 30)), Rotl(V(46), 30), K(46), W(46));
    assert V(52)
        == Sum(Rotl(V(51), 5), F(47, V(50), Rotl(V(49), 30), Rotl(V(48), 30)), Rotl(V(47), 30), K(47), W(47));
    assert V(53)
        == Sum(Rotl(V(52), 5), F(48, V(51), Rotl(V(50), 30), Rotl(V(49), 30)), Rotl(V(48), 30), K(48), W(48));
    assert V(54)
        == Sum(Rotl(V(53), 5), F(49, V(52), Rotl(V(51), 30), Rotl(V(50), 30)), Rotl(V(49), 30), K(49), W(49));
    hide Sum, Rotl, F, K, V, W;
    forall t | 45 <= t < 50 ensures Rounded(V, W, t) {
      assert t == 45 || t == 46 || t == 47 || t == 48 || t == 49;
    }
  }

  lemma RoundedFrom50()
    ensures forall t :: 50 <= t < 55 ==> Rounded(V, W, t)
  {
    assert V(55)
        == Sum(Rotl(V(54), 5), F(50, V(53), Rotl(V(52), 30), Rotl(V(51), 30)), Rotl(V(50), 30), K(50), W(50));
    assert V(56)
        == Sum(Rotl(V(55), 5), F(51, V(54), Rotl(V(53), 30), Rotl(V(52), 30)), Rotl(V(51), 30), K(51), W(51));
    assert V(57)
        == Sum(Rotl(V(56), 5), F(52, V(55), Rotl(V(54), 30), Rotl(V(53), 30)), Rotl(V(52), 30), K(52), W(52));
    assert V(58)
        == Sum(Rotl(V(57), 5), F(53, V(56), Rotl(V(55), 30), Rotl(V(54), 30)), Rotl(V(53), 30), K(53), W(53));
    assert V(59)
        == Sum(Rotl(V(58), 5), F(54, V(57), Rotl(V(56), 30), Rotl(V(55), 30)), Rotl(V(54), 30), K(54), W(54));
    hide Sum, Rotl, F, K, V, W;
    forall t | 50 <= t < 55 ensures Rounded(V, W, t) {
      assert t == 50 || t == 51 || t == 52 || t == 53 || t == 54;
    }
  }

  lemma RoundedFrom55()
    ensures forall t :: 55 <= t < 60 ==> Rounded(V, W, t)
  {
    assert V(60)
        == Sum(Rotl(V(59), 5), F(55, V(58), Rotl(V(57), 30), Rotl(V(56), 30)), Rotl(V(55), 30), K(55), W(55));
    assert V(61)
        == Sum(Rotl(V(60), 5), F(56, V(59), Rotl(V(58), 30), Rotl(V(57), 30)), Rotl(V(56), 30), K(56), W(56));
    assert V(62)
        == Sum(Rotl(V(61), 5), F(57, V(60), Rotl(V(59), 30), Rotl(V(58), 30)), Rotl(V(57), 30), K(57), W(57));
    assert V(63)
        == Sum(Rotl(V(62), 5), F(58, V(61), Rotl(V(60), 30), Rotl(V(59), 30)), Rotl(V(58), 30), K(58), W(58));
    assert V(64)
        == Sum(Rotl(V(63), 5), F(59, V(62), Rotl(V(61), 30), Rotl(V(60), 30)), Rotl(V(59), 30), K(59), W(59));
    hide Sum, Rotl, F, K, V, W;
    forall t | 55 <= t < 60 ensures Rounded(V, W, t) {
      assert t == 55 || t == 56 || t == 57 || t == 58 || t == 59;
    }
  }

  lemma RoundedFrom60()
    ensures forall t :: 60 <= t < 65 ==> Rounded(V, W, t)
  {
    assert V(65)
        == Sum(Rotl(V(64), 5), F(60, V(63), Rotl(V(62), 30), Rotl(V(61), 30)), Rotl(V(60), 30), K(60), W(60));
    assert V(66)
        == Sum(Rotl(V(65), 5), F(61, V(64), Rotl(V(63), 30), Rotl(V(62), 30)), Rotl(V(61), 30), K(61), W(61));
    assert V(67)
        == Sum(Rotl(V(66), 5), F(62, V(65), Rotl(V(64), 30), Rotl(V(63), 30)), Rotl(V(62), 30), K(62), W(62));
    assert V(68)
        == Sum(Rotl(V(67), 5), F(63, V(66), Rotl(V(65), 30), Rotl(V(64), 30)), Rotl(V(63), 30), K(63), W(63));
    assert V(69)
        == Sum(Rotl(V(68), 5), F(64, V(67), Rotl(V(66), 30), Rotl(V(65), 30)), Rotl(V(64), 30), K(64), W(64));
    hide Sum, Rotl, F, K, V, W;
    forall t | 60 <= t < 65 ensures Rounded(V, W, t) {
      assert t == 60 || t == 61 || t == 62 || t == 63 || t == 64;
    }
  }

  lemma RoundedFrom65()
    ensures forall t :: 65 <= t < 70 ==> Rounded(V, W, t)
  {
    assert V(70)
        == Sum(Rotl(V(69), 5), F(65, V(68), Rotl(V(67), 30), Rotl(V(66), 30)), Rotl(V(65), 30), K(65), W(65));
    assert V(71)
        == Sum(Rotl(V(70), 5), F(66, V(69), Rotl(V(68), 30), Rotl(V(67), 30)), Rotl(V(66), 30), K(66), W(66));
    assert V(72)
        == Sum(Rotl(V(71), 5), F(67, V(70), Rotl(V(69), 30), Rotl(V(68), 30)), Rotl(V(67), 30), K(67), W(67));
    assert V(73)
        == Sum(Rotl(V(72), 5), F(68, V(71), Rotl(V(70), 30), Rotl(V(69), 30)), Rotl(V(68), 30), K(68), W(68));
    assert V(74)
        == Sum(Rotl(V(73), 5), F(69, V(72), Rotl(V(71), 30), Rotl(V(70), 30)), Rotl(V(69), 30), K(69), W(69));
    hide Sum, Rotl, F, K, V, W;
    forall t | 65 <= t < 70 ensures Rounded(V, W, t) {
      assert t == 65 || t == 66 || t == 67 || t == 68 || t == 69;
    }
  }

  lemma RoundedFrom70()
    ensures forall t :: 70 <= t < 75 ==> Rounded(V, W, t)
  {
    assert V(75)
        == Sum(Rotl(V(74), 5), F(70, V(73), Rotl(V(72), 30), Rotl(V(71), 30)), Rotl(V(70), 30), K(70), W(70));
    assert V(76)
        == Sum(Rotl(V(75), 5), F(71, V(74), Rotl(V(73), 30), Rotl(V(72), 30)), Rotl(V(71), 30), K(71), W(71));
    assert V(77)
        == Sum(Rotl(V(76), 5), F(72, V(75), Rotl(V(74), 30), Rotl(V(73), 30)), Rotl(V(72), 30), K(72), W(72));
    assert V(78)
        == Sum(Rotl(V(77), 5), F(73, V(76), Rotl(V(75), 30), Rotl(V(74), 30)), Rotl(V(73), 30), K(73), W(73));
    assert V(79)
        == Sum(Rotl(V(78), 5), F(74, V(77), Rotl(V(76), 30), Rotl(V(75), 30)), Rotl(V(74), 30), K(74), W(74));
    hide Sum, Rotl, F, K, V, W;
    forall t | 70 <= t < 75 ensures Rounded(V, W, t) {
      assert t == 70 || t == 71 || t == 72 || t == 73 || t == 74;
    }
  }

  lemma RoundedFrom75()
    ensures forall t :: 75 <= t < 80 ==> Rounded(V, W, t)
  {
    assert V(80)
        == Sum(Rotl(V(79), 5), F(75, V(78), Rotl(V(77), 30), Rotl(V(76), 30)), Rotl(V(75), 30), K(75), W(75));
    assert V(81)
        == Sum(Rotl(V(80), 5), F(76, V(79), Rotl(V(78), 30), Rotl(V(77), 30)), Rotl(V(76), 30), K(76), W(76));
    assert V(82)
        == Sum(Rotl(V(81), 5), F(77, V(80), Rotl(V(79), 30), Rotl(V(78), 30)), Rotl(V(77), 30), K(77), W(77));
    assert V(83)
        == Sum(Rotl(V(82), 5), F(78, V(81), Rotl(V(80), 30), Rotl(V(79), 30)), Rotl(V(78), 30), K(78), W(78));
    assert V(84)
        == Sum(Rotl(V(83), 5), F(79, V(82), Rotl(V(81), 30), Rotl(V(80), 30)), Rotl(V(79), 30), K(79), W(79));
    hide Sum, Rotl, F, K, V, W;
    forall t | 75 <= t < 80 ensures Rounded(V, W, t) {
      assert t == 75 || t == 76 || t == 77 || t == 78 || t == 79;
    }
  }

  /** Every word and every round. */
  lemma Holds()
    ensures Traced(V, W)
  {
    hide Mixed, Rounded;
    MixedFrom16(); MixedFrom20(); MixedFrom24(); MixedFrom28();
    MixedFrom32(); MixedFrom36(); MixedFrom40(); MixedFrom44();
    MixedFrom48(); MixedFrom52(); MixedFrom56(); MixedFrom60();
    MixedFrom64(); MixedFrom68(); MixedFrom72(); MixedFrom76();
    RoundedFrom0(); RoundedFrom5(); RoundedFrom10(); RoundedFrom15();
    RoundedFrom20(); RoundedFrom25(); RoundedFrom30(); RoundedFrom35();
    RoundedFrom40(); RoundedFrom45(); RoundedFrom50(); RoundedFrom55();
    RoundedFrom60(); RoundedFrom65(); RoundedFrom70(); RoundedFrom75();
  }
}

/** The trace of the second block, which holds the end of the padding. */
module SampleSecondBlock {
  import opened Basics
  import opened Sha1Spec
  import opened DigestTrace

  /** The message schedule. */
  function W(t: nat): word {
    if t < 10 then
      (match t case 0 => 0x00000000 case 1 => 0x00000000 case 2 => 0x00000000 case 3 => 0x00000000
       case 4 => 0x00000000 case 5 => 0x00000000 case 6 => 0x00000000 case 7 => 0x00000000
       case 8 => 0x00000000 case _ => 0x00000000)
    else if t < 20 then
      (match t case 10 => 0x00000000 case 11 => 0x00000000 case 12 => 0x00000000 case 13 => 0x00000000
       case 14 => 0x00000000 case 15 => 0x000001E0 case 16 => 0x00000000 case 17 => 0x00000000
       case 18 => 0x000003C0 case _ => 0x00000000)
    else if t < 30 then
      (match t case 20 => 0x00000000 case 21 => 0x00000780 case 22 => 0x00000000 case 23 => 0x000003C0
       case 24 => 0x00000F00 case 25 => 0x00000000 case 26 => 0x00000000 case 27 => 0x00001E00
       case 28 => 0x00000000 case _ => 0x00000CC0)
    else if t < 40 then
      (match t case 30 => 0x00003C00 case 31 => 0x00000440 case 32 => 0x00000000 case 33 => 0x00007800
       case 34 => 0x00000F00 case 35 => 0x00003300 case 36 => 0x0000F000 case 37 => 0x00000F00
       case 38 => 0x00000000 case _ => 0x0001EF00)
    else if t < 50 then
      (match t case 40 => 0x00000000 case 41 => 0x0000CC00 case 42 => 0x0003C000 case 43 => 0x00004380
       case 44 => 0x00000000 case 45 => 0x00078F00 case 46 => 0x0000FF00 case 47 => 0x00032680
       case 48 => 0x000F0000 case _ => 0x0000F000)
    else if t < 60 then
      (match t case 50 => 0x00003300 case 51 => 0x001EFF00 case 52 => 0x00000000 case 53 => 0x000CB800
       case 54 => 0x003C0000 case 55 => 0x00040B00 case 56 => 0x0000F000 case 57 => 0x0078FF00
       case 58 => 0x000FF000 case _ => 0x00338700)
    else if t < 70 then
      (match t case 60 => 0x00F00000 case 61 => 0x000FC300 case 62 => 0x0000F000 case 63 => 0x01EFBB00
       case 64 => 0x00000000 case 65 => 0x00CC0000 case 66 => 0x03C0F000 case 67 => 0x00438000
       case 68 => 0x00000000 case _ => 0x078F0000)
    else
      (match t case 70 => 0x00FF0000 case 71 => 0x03269E00 case 72 => 0x0F000000 case 73 => 0x00F0F000
       case 74 => 0x00333C00 case 75 => 0x1EFF8800 case 76 => 0x00000000 case 77 => 0x0CB88800
       case 78 => 0x3C00F000 case _ => 0x040A4A00)
  }

  /** The values of the first working variable: four of old, the one before the first round, and one for each round. */
  function V(t: nat): word {
    if t < 10 then
      (match t case 0 => 0x791A9389 case 1 => 0x69E061E1 case 2 => 0xF9EFEFE6 case 3 => 0x7327416A
       case 4 => 0x5BCF7727 case 5 => 0x6D335CDE case 6 => 0x186006B8 case 7 => 0xF9FB295D
       case 8 => 0x15855523 case _ => 0xE43DD2F2)
    else if t < 20 then
      (match t case 10 => 0x93A5EFBB case 11 => 0xB3BBCAFE case 12 => 0x25C018BE case 13 => 0x80946593
       case 14 => 0x0B0814C3 case 15 => 0x4CE92417 case 16 => 0x250601AD case 17 => 0x6576D2DC
       case 18 => 0xAD43F39E case _ => 0x990B7BE7)
    else if t < 30 then
      (match t case 20 => 0x986DF268 case 21 => 0x3AD7440E case 22 => 0x72198F06 case 23 => 0x2F193A09
       case 24 => 0x2A008B51 case 25 => 0x12315B2B case 26 => 0x40FBCF98 case 27 => 0x3E5179E7
       case 28 => 0x53C73650 case _ => 0x1D24C44A)
    else if t < 40 then
      (match t case 30 => 0x646C677D case 31 => 0xD2E726DA case 32 => 0x9327DF6F case 33 => 0xF57CB53E
       case 34 => 0x243EE057 case 35 => 0xF4DDD7B7 case 36 => 0x3CF6EB58 case 37 => 0x730E9170
       case 38 => 0x96D9E59E case _ => 0x942AC4D3)
    else if t < 50 then
      (match t case 40 => 0x76922A14 case 41 => 0x7DBCF2ED case 42 => 0x796ADEF3 case 43 => 0xC6FF0CD3
       case 44 => 0x6F698F1A case 45 => 0x78716769 case 46 => 0xFC343A02 case 47 => 0xEDFCD85B
       case 48 => 0x1E934ACF case _ => 0xFC7BD35F)
    else if t < 60 then
      (match t case 50 => 0x3BD9203B case 51 => 0xC8CDA3DA case 52 => 0xA3EF857E case 53 => 0xA39F2041
       case 54 => 0xA516F265 case 55 => 0xA3ABE4F5 case 56 => 0x5FE2A3DB case 57 => 0x9E540637
       case 58 => 0x2C73BD78 case _ => 0x660DD0B1)
    else if t < 70 then
      (match t case 60 => 0xA1B68141 case 61 => 0x05033FA3 case 62 => 0x21289715 case 63 => 0x085EB2FE
       case 64 => 0x56119F19 case 65 => 0x77489E23 case 66 => 0x11132F8F case 67 => 0xD5EF1ED7
       case 68 => 0xA5937450 case _ => 0x9ECFA66C)
    else if t < 80 then
      (match t case 70 => 0x17A22EF7 case 71 => 0xC97F1968 case 72 => 0x097A511C case 73 => 0x4E363DB9
       case 74 => 0xBF3A7F95 case 75 => 0xF6D1AFEE case 76 => 0xC90888CA case 77 => 0xC7652EDB
       case 78 => 0x26F99990 case _ => 0xE22B36D1)
    else
      (match t case 80 => 0x51E08021 case 81 => 0xD3010335 case 82 => 0x49E92837 case 83 => 0x4D3B0DAC
       case _ => 0x57AAD805)
  }

  lemma MixedFrom16()
    ensures forall t :: 16 <= t < 20 ==> Mixed(W, t)
  {
    assert Mix(W(13), W(8), W(2), W(0)) == W(16) && Mix(W(14), W(9), W(3), W(1)) == W(17);
    assert Mix(W(15), W(10), W(4), W(2)) == W(18) && Mix(W(16), W(11), W(5), W(3)) == W(19);
    hide Mix, W;
    forall t | 16 <= t < 20 ensures Mixed(W, t) {
      assert t == 16 || t == 17 || t == 18 || t == 19;
    }
  }

  lemma MixedFrom20()
    ensures forall t :: 20 <= t < 24 ==> Mixed(W, t)
  {
    assert Mix(W(17), W(12), W(6), W(4)) == W(20) && Mix(W(18), W(13), W(7), W(5)) == W(21);
    assert Mix(W(19), W(14), W(8), W(6)) == W(22) && Mix(W(20), W(15), W(9), W(7)) == W(23);
    hide Mix, W;
    forall t | 20 <= t < 24 ensures Mixed(W, t) {
      assert t == 20 || t == 21 || t == 22 || t == 23;
    }
  }

  lemma MixedFrom24()
    ensures forall t :: 24 <= t < 28 ==> Mixed(W, t)
  {
    assert Mix(W(21), W(16), W(10), W(8)) == W(24) && Mix(W(22), W(17), W(11), W(9)) == W(25);
    assert Mix(W(23), W(18), W(12), W(10)) == W(26) && Mix(W(24), W(19), W(13), W(11)) == W(27);
    hide Mix, W;
    forall t | 24 <= t < 28 ensures Mixed(W, t) {
      assert t == 24 || t == 25 || t == 26 || t == 27;
    }
  }

  lemma MixedFrom28()
    ensures forall t :: 28 <= t < 32 ==> Mixed(W, t)
  {
    assert Mix(W(25), W(20), W(14), W(12)) == W(28) && Mix(W(26), W(21), W(15), W(13)) == W(29);
    assert Mix(W(27), W(22), W(16), W(14)) == W(30) && Mix(W(28), W(23), W(17), W(15)) == W(31);
    hide Mix, W;
    forall t | 28 <= t < 32 ensures Mixed(W, t) {
      assert t == 28 || t == 29 || t == 30 || t == 31;
    }
  }

  lemma MixedFrom32()
    ensures forall t :: 32 <= t < 36 ==> Mixed(W, t)
  {
    assert Mix(W(29), W(24), W(18), W(16)) == W(32) && Mix(W(30), W(25), W(19), W(17)) == W(33);
    assert Mix(W(31), W(26), W(20), W(18)) == W(34) && Mix(W(32), W(27), W(21), W(19)) == W(35);
    hide Mix, W;
    forall t | 32 <= t < 36 ensures Mixed(W, t) {
      assert t == 32 || t == 33 || t == 34 || t == 35;
    }
  }

  lemma MixedFrom36()
    ensures forall t :: 36 <= t < 40 ==> Mixed(W, t)
  {
    assert Mix(W(33), W(28), W(22), W(20)) == W(36) && Mix(W(34), W(29), W(23), W(21)) == W(37);
    assert Mix(W(35), W(30), W(24), W(22)) == W(38) && Mix(W(36), W(31), W(25), W(23)) == W(39);
    hide Mix, W;
    forall t | 36 <= t < 40 ensures Mixed(W, t) {
      assert t == 36 || t == 37 || t == 38 || t == 39;
    }
  }

  lemma MixedFrom40()
    ensures forall t :: 40 <= t < 44 ==> Mixed(W, t)
  {
    assert Mix(W(37), W(32), W(26), W(24)) == W(40) && Mix(W(38), W(33), W(27), W(25)) == W(41);
    assert Mix(W(39), W(34), W(28), W(26)) == W(42) && Mix(W(40), W(35), W(29), W(27)) == W(43);
    hide Mix, W;
    forall t | 40 <= t < 44 ensures Mixed(W, t) {
      assert t == 40 || t == 41 || t == 42 || t == 43;
    }
  }

  lemma MixedFrom44()
    ensures forall t :: 44 <= t < 48 ==> Mixed(W, t)
  {
    assert Mix(W(41), W(36), W(30), W(28)) == W(44) && Mix(W(42), W(37), W(31), W(29)) == W(45);
    assert Mix(W(43), W(38), W(32), W(30)) == W(46) && Mix(W(44), W(39), W(33), W(31)) == W(47);
    hide Mix, W;
    forall t | 44 <= t < 48 ensures Mixed(W, t) {
      assert t == 44 || t == 45 || t == 46 || t == 47;
    }
  }

  lemma MixedFrom48()
    ensures forall t :: 48 <= t < 52 ==> Mixed(W, t)
  {
    assert Mix(W(45), W(40), W(34), W(32)) == W(48) && Mix(W(46), W(41), W(35), W(33)) == W(49);
    assert Mix(W(47), W(42), W(36), W(34)) == W(50) && Mix(W(48), W(43), W(37), W(35)) == W(51);
    hide Mix, W;
    forall t | 48 <= t < 52 ensures Mixed(W, t) {
      assert t == 48 || t == 49 || t == 50 || t == 51;
    }
  }

  lemma MixedFrom52()
    ensures forall t :: 52 <= t < 56 ==> Mixed(W, t)
  {
    assert Mix(W(49), W(44), W(38), W(36)) == W(52) && Mix(W(50), W(45), W(39), W(37)) == W(53);
    assert Mix(W(51), W(46), W(40), W(38)) == W(54) && Mix(W(52), W(47), W(41), W(39)) == W(55);
    hide Mix, W;
    forall t | 52 <= t < 56 ensures Mixed(W, t) {
      assert t == 52 || t == 53 || t == 54 || t == 55;
    }
  }

  lemma MixedFrom56()
    ensures forall t :: 56 <= t < 60 ==> Mixed(W, t)
  {
    assert Mix(W(53), W(48), W(42), W(40)) == W(56) && Mix(W(54), W(49), W(43), W(41)) == W(57);
    assert Mix(W(55), W(50), W(44), W(42)) == W(58) && Mix(W(56), W(51), W(45), W(43)) == W(59);
    hide Mix, W;
    forall t | 56 <= t < 60 ensures Mixed(W, t) {
      assert t == 56 || t == 57 || t == 58 || t == 59;
    }
  }

  lemma MixedFrom60()
    ensures forall t :: 60 <= t < 64 ==> Mixed(W, t)
  {
    assert Mix(W(57), W(52), W(46), W(44)) == W(60) && Mix(W(58), W(53), W(47), W(45)) == W(61);
    assert Mix(W(59), W(54), W(48), W(46)) == W(62) && Mix(W(60), W(55), W(49), W(47)) == W(63);
    hide Mix, W;
    forall t | 60 <= t < 64 ensures Mixed(W, t) {
      assert t == 60 || t == 61 || t == 62 || t == 63;
    }
  }

  lemma MixedFrom64()
    ensures forall t :: 64 <= t < 68 ==> Mixed(W, t)
  {
    assert Mix(W(61), W(56), W(50), W(48)) == W(64) && Mix(W(62), W(57), W(51), W(49)) == W(65);
    assert Mix(W(63), W(58), W(52), W(50)) == W(66) && Mix(W(64), W(59), W(53), W(51)) == W(67);
    hide Mix, W;
    forall t | 64 <= t < 68 ensures Mixed(W, t) {
      assert t == 64 || t == 65 || t == 66 || t == 67;
    }
  }

  lemma MixedFrom68()
    ensures forall t :: 68 <= t < 72 ==> Mixed(W, t)
  {
    assert Mix(W(65), W(60), W(54), W(52)) == W(68) && Mix(W(66), W(61), W(55), W(53)) == W(69);
    assert Mix(W(67), W(62), W(56), W(54)) == W(70) && Mix(W(68), W(63), W(57), W(55)) == W(71);
    hide Mix, W;
    forall t | 68 <= t < 72 ensures Mixed(W, t) {
      assert t == 68 || t == 69 || t == 70 || t == 71;
    }
  }

  lemma MixedFrom72()
    ensures forall t :: 72 <= t < 76 ==> Mixed(W, t)
  {
    assert Mix(W(69), W(64), W(58), W(56)) == W(72) && Mix(W(70), W(65), W(59), W(57)) == W(73);
    assert Mix(W(71), W(66), W(60), W(58)) == W(74) && Mix(W(72), W(67), W(61), W(59)) == W(75);
    hide Mix, W;
    forall t | 72 <= t < 76 ensures Mixed(W, t) {
      assert t == 72 || t == 73 || t == 74 || t == 75;
    }
  }

  lemma MixedFrom76()
    ensures forall t :: 76 <= t < 80 ==> Mixed(W, t)
  {
    assert Mix(W(73), W(68), W(62), W(60)) == W(76) && Mix(W(74), W(69), W(63), W(61)) == W(77);
    assert Mix(W(75), W(70), W(64), W(62)) == W(78) && Mix(W(76), W(71), W(65), W(63)) == W(79);
    hide Mix, W;
    forall t | 76 <= t < 80 ensures Mixed(W, t) {
      assert t == 76 || t == 77 || t == 78 || t == 79;
    }
  }

  lemma RoundedFrom0()
    ensures forall t :: 0 <= t < 5 ==> Rounded(V, W, t)
  {
    assert V(5)
        == Sum(Rotl(V(4), 5), F(0, V(3), Rotl(V(2), 30), Rotl(V(1), 30)), Rotl(V(0), 30), K(0), W(0));
    assert V(6)
        == Sum(Rotl(V(5), 5), F(1, V(4), Rotl(V(3), 30), Rotl(V(2), 30)), Rotl(V(1), 30), K(1), W(1));
    assert V(7)
        == Sum(Rotl(V(6), 5), F(2, V(5), Rotl(V(4), 30), Rotl(V(3), 30)), Rotl(V(2), 30), K(2), W(2));
    assert V(8)
        == Sum(Rotl(V(7), 5), F(3, V(6), Rotl(V(5), 30), Rotl(V(4), 30)), Rotl(V(3), 30), K(3), W(3));
    assert V(9)
        == Sum(Rotl(V(8), 5), F(4, V(7), Rotl(V(6), 30), Rotl(V(5), 30)), Rotl(V(4), 30), K(4), W(4));
    hide Sum, Rotl, F, K, V, W;
    forall t | 0 <= t < 5 ensures Rounded(V, W, t) {
      assert t == 0 || t == 1 || t == 2 || t == 3 || t == 4;
    }
  }

  lemma RoundedFrom5()
    ensures forall t :: 5 <= t < 10 ==> Rounded(V, W, t)
  {
    assert V(10)
        == Sum(Rotl(V(9), 5), F(5, V(8), Rotl(V(7), 30), Rotl(V(6), 30)), Rotl(V(5), 30), K(5), W(5));
    assert V(11)
        == Sum(Rotl(V(10), 5), F(6, V(9), Rotl(V(8), 30), Rotl(V(7), 30)), Rotl(V(6), 30), K(6), W(6));
    assert V(12)
        == Sum(Rotl(V(11), 5), F(7, V(10), Rotl(V(9), 30), Rotl(V(8), 30)), Rotl(V(7), 30), K(7), W(7));
    assert V(13)
        == Sum(Rotl(V(12), 5), F(8, V(11), Rotl(V(10), 30), Rotl(V(9), 30)), Rotl(V(8), 30), K(8), W(8));
    assert V(14)
        == Sum(Rotl(V(13), 5), F(9, V(12), Rotl(V(11), 30), Rotl(V(10), 30)), Rotl(V(9), 30), K(9), W(9));
    hide Sum, Rotl, F, K, V, W;
    forall t | 5 <= t < 10 ensures Rounded(V, W, t) {
      assert t == 5 || t == 6 || t == 7 || t == 8 || t == 9;
    }
  }

  lemma RoundedFrom10()
    ensures forall t :: 10 <= t < 15 ==> Rounded(V, W, t)
  {
    assert V(15)
        == Sum(Rotl(V(14), 5), F(10, V(13), Rotl(V(12), 30), Rotl(V(11), 30)), Rotl(V(10), 30), K(10), W(10));
    assert V(16)
        == Sum(Rotl(V(15), 5), F(11, V(14), Rotl(V(13), 30), Rotl(V(12), 30)), Rotl(V(11), 30), K(11), W(11));
    assert V(17)
        == Sum(Rotl(V(16), 5), F(12, V(15), Rotl(V(14), 30), Rotl(V(13), 30)), Rotl(V(12), 30), K(12), W(12));
    assert V(18)
        == Sum(Rotl(V(17), 5), F(13, V(16), Rotl(V(15), 30), Rotl(V(14), 30)), Rotl(V(13), 30), K(13), W(13));
    assert V(19)
        == Sum(Rotl(V(18), 5), F(14, V(17), Rotl(V(16), 30), Rotl(V(15), 30)), Rotl(V(14), 30), K(14), W(14));
    hide Sum, Rotl, F, K, V, W;
    forall t | 10 <= t < 15 ensures Rounded(V, W, t) {
      assert t == 10 || t == 11 || t == 12 || t == 13 || t == 14;
    }
  }

  lemma RoundedFrom15()
    ensures forall t :: 15 <= t < 20 ==> Rounded(V, W, t)
  {
    assert V(20)
        == Sum(Rotl(V(19), 5), F(15, V(18), Rotl(V(17), 30), Rotl(V(16), 30)), Rotl(V(15), 30), K(15), W(15));
    assert V(21)
        == Sum(Rotl(V(20), 5), F(16, V(19), Rotl(V(18), 30), Rotl(V(17), 30)), Rotl(V(16), 30), K(16), W(16));
    assert V(22)
        == Sum(Rotl(V(21), 5), F(17, V(20), Rotl(V(19), 30), Rotl(V(18), 30)), Rotl(V(17), 30), K(17), W(17));
    assert V(23)
        == Sum(Rotl(V(22), 5), F(18, V(21), Rotl(V(20), 30), Rotl(V(19), 30)), Rotl(V(18), 30), K(18), W(18));
    assert V(24)
        == Sum(Rotl(V(23), 5), F(19, V(22), Rotl(V(21), 30), Rotl(V(20), 30)), Rotl(V(19), 30), K(19), W(19));
    hide Sum, Rotl, F, K, V, W;
    forall t | 15 <= t < 20 ensures Rounded(V, W, t) {
      assert t == 15 || t == 16 || t == 17 || t == 18 || t == 19;
    }
  }

  lemma RoundedFrom20()
    ensures forall t :: 20 <= t < 25 ==> Rounded(V, W, t)
  {
    assert V(25)
        == Sum(Rotl(V(24), 5), F(20, V(23), Rotl(V(22), 30), Rotl(V(21), 30)), Rotl(V(20), 30), K(20), W(20));
    assert V(26)
        == Sum(Rotl(V(25), 5), F(21, V(24), Rotl(V(23), 30), Rotl(V(22), 30)), Rotl(V(21), 30), K(21), W(21));
    assert V(27)
        == Sum(Rotl(V(26), 5), F(22, V(25), Rotl(V(24), 30), Rotl(V(23), 30)), Rotl(V(22), 30), K(22), W(22));
    assert V(28)
        == Sum(Rotl(V(27), 5), F(23, V(26), Rotl(V(25), 30), Rotl(V(24), 30)), Rotl(V(23), 30), K(23), W(23));
    assert V(29)
        == Sum(Rotl(V(28), 5), F(24, V(27), Rotl(V(26), 30), Rotl(V(25), 30)), Rotl(V(24), 30), K(24), W(24));
    hide Sum, Rotl, F, K, V, W;
    forall t | 20 <= t < 25 ensures Rounded(V, W, t) {
      assert t == 20 || t == 21 || t == 22 || t == 23 || t == 24;
    }
  }

  lemma RoundedFrom25()
    ensures forall t :: 25 <= t < 30 ==> Rounded(V, W, t)
  {
    assert V(30)
        == Sum(Rotl(V(29), 5), F(25, V(28), Rotl(V(27), 30), Rotl(V(26), 30)), Rotl(V(25), 30), K(25), W(25));
    assert V(31)
        == Sum(Rotl(V(30), 5), F(26, V(29), Rotl(V(28), 30), Rotl(V(27), 30)), Rotl(V(26), 30), K(26), W(26));
    assert V(32)
        == Sum(Rotl(V(31), 5), F(27, V(30), Rotl(V(29), 30), Rotl(V(28), 30)), Rotl(V(27), 30), K(27), W(27));
    assert V(33)
        == Sum(Rotl(V(32), 5), F(28, V(31), Rotl(V(30), 30), Rotl(V(29), 30)), Rotl(V(28), 30), K(28), W(28));
    assert V(34)
        == Sum(Rotl(V(33), 5), F(29, V(32), Rotl(V(31), 30), Rotl(V(30), 30)), Rotl(V(29), 30), K(29), W(29));
    hide Sum, Rotl, F, K, V, W;
    forall t | 25 <= t < 30 ensures Rounded(V, W, t) {
      assert t == 25 || t == 26 || t == 27 || t == 28 || t == 29;
    }
  }

  lemma RoundedFrom30()
    ensures forall t :: 30 <= t < 35 ==> Rounded(V, W, t)
  {
    assert V(35)
        == Sum(Rotl(V(34), 5), F(30, V(33), Rotl(V(32), 30), Rotl(V(31), 30)), Rotl(V(30), 30), K(30), W(30));
    assert V(36)
        == Sum(Rotl(V(35), 5), F(31, V(34), Rotl(V(33), 30), Rotl(V(32), 30)), Rotl(V(31), 30), K(31), W(31));
    assert V(37)
        == Sum(Rotl(V(36), 5), F(32, V(35), Rotl(V(34), 30), Rotl(V(33), 30)), Rotl(V(32), 30), K(32), W(32));
    assert V(38)
        == Sum(Rotl(V(37), 5), F(33, V(36), Rotl(V(35), 30), Rotl(V(34), 30)), Rotl(V(33), 30), K(33), W(33));
    assert V(39)
        == Sum(Rotl(V(38), 5), F(34, V(37), Rotl(V(36), 30), Rotl(V(35), 30)), Rotl(V(34), 30), K(34), W(34));
    hide Sum, Rotl, F, K, V, W;
    forall t | 30 <= t < 35 ensures Rounded(V, W, t) {
      assert t == 30 || t == 31 || t == 32 || t == 33 || t == 34;
    }
  }

  lemma RoundedFrom35()
    ensures forall t :: 35 <= t < 40 ==> Rounded(V, W, t)
  {
    assert V(40)
        == Sum(Rotl(V(39), 5), F(35, V(38), Rotl(V(37), 30), Rotl(V(36), 30)), Rotl(V(35), 30), K(35), W(35));
    assert V(41)
        == Sum(Rotl(V(40), 5), F(36, V(39), Rotl(V(38), 30), Rotl(V(37), 30)), Rotl(V(36), 30), K(36), W(36));
    assert V(42)
        == Sum(Rotl(V(41), 5), F(37, V(40), Rotl(V(39), 30), Rotl(V(38), 30)), Rotl(V(37), 30), K(37), W(37));
    assert V(43)
        == Sum(Rotl(V(42), 5), F(38, V(41), Rotl(V(40), 30), Rotl(V(39), 30)), Rotl(V(38), 30), K(38), W(38));
    assert V(44)
        == Sum(Rotl(V(43), 5), F(39, V(42), Rotl(V(41), 30), Rotl(V(40), 30)), Rotl(V(39), 30), K(39), W(39));
    hide Sum, Rotl, F, K, V, W;
    forall t | 35 <= t < 40 ensures Rounded(V, W, t) {
      assert t == 35 || t == 36 || t == 37 || t == 38 || t == 39;
    }
  }

  lemma RoundedFrom40()
    ensures forall t :: 40 <= t < 45 ==> Rounded(V, W, t)
  {
    assert V(45)
        == Sum(Rotl(V(44), 5), F(40, V(43), Rotl(V(42), 30), Rotl(V(41), 30)), Rotl(V(40), 30), K(40), W(40));
    assert V(46)
        == Sum(Rotl(V(45), 5), F(41, V(44), Rotl(V(43), 30), Rotl(V(42), 30)), Rotl(V(41), 30), K(41), W(41));
    assert V(47)
        == Sum(Rotl(V(46), 5), F(42, V(45), Rotl(V(44), 30), Rotl(V(43), 30)), Rotl(V(42), 30), K(42), W(42));
    assert V(48)
        == Sum(Rotl(V(47), 5), F(43, V(46), Rotl(V(45), 30), Rotl(V(44), 30)), Rotl(V(43), 30), K(43), W(43));
    assert V(49)
        == Sum(Rotl(V(48), 5), F(44, V(47), Rotl(V(46), 30), Rotl(V(45), 30)), Rotl(V(44), 30), K(44), W(44));
    hide Sum, Rotl, F, K, V, W;
    forall t | 40 <= t < 45 ensures Rounded(V, W, t) {
      assert t == 40 || t == 41 || t == 42 || t == 43 || t == 44;
    }
  }

  lemma RoundedFrom45()
    ensures forall t :: 45 <= t < 50 ==> Rounded(V, W, t)
  {
    assert V(50)
        == Sum(Rotl(V(49), 5), F(45, V(48), Rotl(V(47), 30), Rotl(V(46), 30)), Rotl(V(45), 30), K(45), W(45));
    assert V(51)
        == Sum(Rotl(V(50), 5), F(46, V(49), Rotl(V(48), 30), Rotl(V(47), 30)), Rotl(V(46), 30), K(46), W(46));
    assert V(52)
        == Sum(Rotl(V(51), 5), F(47, V(50), Rotl(V(49), 30), Rotl(V(48), 30)), Rotl(V(47), 30), K(47), W(47));
    assert V(53)
        == Sum(Rotl(V(52), 5), F(48, V(51), Rotl(V(50), 30), Rotl(V(49), 30)), Rotl(V(48), 30), K(48), W(48));
    assert V(54)
        == Sum(Rotl(V(53), 5), F(49, V(52), Rotl(V(51), 30), Rotl(V(50), 30)), Rotl(V(49), 30), K(49), W(49));
    hide Sum, Rotl, F, K, V, W;
    forall t | 45 <= t < 50 ensures Rounded(V, W, t) {
      assert t == 45 || t == 46 || t == 47 || t == 48 || t == 49;
    }
  }

  lemma RoundedFrom50()
    ensures forall t :: 50 <= t < 55 ==> Rounded(V, W, t)
  {
    assert V(55)
        == Sum(Rotl(V(54), 5), F(50, V(53), Rotl(V(52), 30), Rotl(V(51), 30)), Rotl(V(50), 30), K(50), W(50));
    assert V(56)
        == Sum(Rotl(V(55), 5), F(51, V(54), Rotl(V(53), 30), Rotl(V(52), 30)), Rotl(V(51), 30), K(51), W(51));
    assert V(57)
        == Sum(Rotl(V(56), 5), F(52, V(55), Rotl(V(54), 30), Rotl(V(53), 30)), Rotl(V(52), 30), K(52), W(52));
    assert V(58)
        == Sum(Rotl(V(57), 5), F(53, V(56), Rotl(V(55), 30), Rotl(V(54), 30)), Rotl(V(53), 30), K(53), W(53));
    assert V(59)
        == Sum(Rotl(V(58), 5), F(54, V(57), Rotl(V(56), 30), Rotl(V(55), 30)), Rotl(V(54), 30), K(54), W(54));
    hide Sum, Rotl, F, K, V, W;
    forall t | 50 <= t < 55 ensures Rounded(V, W, t) {
      assert t == 50 || t == 51 || t == 52 || t == 53 || t == 54;
    }
  }

  lemma RoundedFrom55()
    ensures forall t :: 55 <= t < 60 ==> Rounded(V, W, t)
  {
    assert V(60)
        == Sum(Rotl(V(59), 5), F(55, V(58), Rotl(V(57), 30), Rotl(V(56), 30)), Rotl(V(55), 30), K(55), W(55));
    assert V(61)
        == Sum(Rotl(V(60), 5), F(56, V(59), Rotl(V(58), 30), Rotl(V(57), 30)), Rotl(V(56), 30), K(56), W(56));
    assert V(62)
        == Sum(Rotl(V(61), 5), F(57, V(60), Rotl(V(59), 30), Rotl(V(58), 30)), Rotl(V(57), 30), K(57), W(57));
    assert V(63)
        == Sum(Rotl(V(62), 5), F(58, V(61), Rotl(V(60), 30), Rotl(V(59), 30)), Rotl(V(58), 30), K(58), W(58));
    assert V(64)
        == Sum(Rotl(V(63), 5), F(59, V(62), Rotl(V(61), 30), Rotl(V(60), 30)), Rotl(V(59), 30), K(59), W(59));
    hide Sum, Rotl, F, K, V, W;
    forall t | 55 <= t < 60 ensures Rounded(V, W, t) {
      assert t == 55 || t == 56 || t == 57 || t == 58 || t == 59;
    }
  }

  lemma RoundedFrom60()
    ensures forall t :: 60 <= t < 65 ==> Rounded(V, W, t)
  {
    assert V(65)
        == Sum(Rotl(V(64), 5), F(60, V(63), Rotl(V(62), 30), Rotl(V(61), 30)), Rotl(V(60), 30), K(60), W(60));
    assert V(66)
        == Sum(Rotl(V(65), 5), F(61, V(64), Rotl(V(63), 30), Rotl(V(62), 30)), Rotl(V(61), 30), K(61), W(61));
    assert V(67)
        == Sum(Rotl(V(66), 5), F(62, V(65), Rotl(V(64), 30), Rotl(V(63), 30)), Rotl(V(62), 30), K(62), W(62));
    assert V(68)
        == Sum(Rotl(V(67), 5), F(63, V(66), Rotl(V(65), 30), Rotl(V(64), 30)), Rotl(V(63), 30), K(63), W(63));
    assert V(69)
        == Sum(Rotl(V(68), 5), F(64, V(67), Rotl(V(66), 30), Rotl(V(65), 30)), Rotl(V(64), 30), K(64), W(64));
    hide Sum, Rotl, F, K, V, W;
    forall t | 60 <= t < 65 ensures Rounded(V, W, t) {
      assert t == 60 || t == 61 || t == 62 || t == 63 || t == 64;
    }
  }

  lemma RoundedFrom65()
    ensures forall t :: 65 <= t < 70 ==> Rounded(V, W, t)
  {
    assert V(70)
        == Sum(Rotl(V(69), 5), F(65, V(68), Rotl(V(67), 30), Rotl(V(66), 30)), Rotl(V(65), 30), K(65), W(65));
    assert V(71)
        == Sum(Rotl(V(70), 5), F(66, V(69), Rotl(V(68), 30), Rotl(V(67), 30)), Rotl(V(66), 30), K(66), W(66));
    assert V(72)
        == Sum(Rotl(V(71), 5), F(67, V(70), Rotl(V(69), 30), Rotl(V(68), 30)), Rotl(V(67), 30), K(67), W(67));
    assert V(73)
        == Sum(Rotl(V(72), 5), F(68, V(71), Rotl(V(70), 30), Rotl(V(69), 30)), Rotl(V(68), 30), K(68), W(68));
    assert V(74)
        == Sum(Rotl(V(73), 5), F(69, V(72), Rotl(V(71), 30), Rotl(V(70), 30)), Rotl(V(69), 30), K(69), W(69));
    hide Sum, Rotl, F, K, V, W;
    forall t | 65 <= t < 70 ensures Rounded(V, W, t) {
      assert t == 65 || t == 66 || t == 67 || t == 68 || t == 69;
    }
  }

  lemma RoundedFrom70()
    ensures forall t :: 70 <= t < 75 ==> Rounded(V, W, t)
  {
    assert V(75)
        == Sum(Rotl(V(74), 5), F(70, V(73), Rotl(V(72), 30), Rotl(V(71), 30)), Rotl(V(70), 30), K(70), W(70));
    assert V(76)
        == Sum(Rotl(V(75), 5), F(71, V(74), Rotl(V(73), 30), Rotl(V(72), 30)), Rotl(V(71), 30), K(71), W(71));
    assert V(77)
        == Sum(Rotl(V(76), 5), F(72, V(75), Rotl(V(74), 30), Rotl(V(73), 30)), Rotl(V(72), 30), K(72), W(72));
    assert V(78)
        == Sum(Rotl(V(77), 5), F(73, V(76), Rotl(V(75), 30), Rotl(V(74), 30)), Rotl(V(73), 30), K(73), W(73));
    assert V(79)
        == Sum(Rotl(V(78), 5), F(74, V(77), Rotl(V(76), 30), Rotl(V(75), 30)), Rotl(V(74), 30), K(74), W(74));
    hide Sum, Rotl, F, K, V, W;
    forall t | 70 <= t < 75 ensures Rounded(V, W, t) {
      assert t == 70 || t == 71 || t == 72 || t == 73 || t == 74;
    }
  }

  lemma RoundedFrom75()
    ensures forall t :: 75 <= t < 80 ==> Rounded(V, W, t)
  {
    assert V(80)
        == Sum(Rotl(V(79), 5), F(75, V(78), Rotl(V(77), 30), Rotl(V(76), 30)), Rotl(V(75), 30), K(75), W(75));
    assert V(81)
        == Sum(Rotl(V(80), 5), F(76, V(79), Rotl(V(78), 30), Rotl(V(77), 30)), Rotl(V(76), 30), K(76), W(76));
    assert V(82)
        == Sum(Rotl(V(81), 5), F(77, V(80), Rotl(V(79), 30), Rotl(V(78), 30)), Rotl(V(77), 30), K(77), W(77));
    assert V(83)
        == Sum(Rotl(V(82), 5), F(78, V(81), Rotl(V(80), 30), Rotl(V(79), 30)), Rotl(V(78), 30), K(78), W(78));
    assert V(84)
        == Sum(Rotl(V(83), 5), F(79, V(82), Rotl(V(81), 30), Rotl(V(80), 30)), Rotl(V(79), 30), K(79), W(79));
    hide Sum, Rotl, F, K, V, W;
    forall t | 75 <= t < 80 ensures Rounded(V, W, t) {
      assert t == 75 || t == 76 || t == 77 || t == 78 || t == 79;
    }
  }

  /** Every word and every round. */
  lemma Holds()
    ensures Traced(V, W)
  {
    hide Mixed, Rounded;
    MixedFrom16(); MixedFrom20(); MixedFrom24(); MixedFrom28();
    MixedFrom32(); MixedFrom36(); MixedFrom40(); MixedFrom44();
    MixedFrom48(); MixedFrom52(); MixedFrom56(); MixedFrom60();
    MixedFrom64(); MixedFrom68(); MixedFrom72(); MixedFrom76();
    RoundedFrom0(); RoundedFrom5(); RoundedFrom10(); RoundedFrom15();
    RoundedFrom20(); RoundedFrom25(); RoundedFrom30(); RoundedFrom35();
    RoundedFrom40(); RoundedFrom45(); RoundedFrom50(); RoundedFrom55();
    RoundedFrom60(); RoundedFrom65(); RoundedFrom70(); RoundedFrom75();
  }
}
