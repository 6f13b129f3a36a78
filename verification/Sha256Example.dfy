/** The one-block example of FIPS 180-4, the message abc, followed through the message schedule and the
    64 rounds to its digest: every rotation, constant and byte order of the definition takes part. */
module Sha256Example {
  import opened Basics
  import opened Encoding
  import opened Sha256

  const ABC: Bytes := [0x61, 0x62, 0x63]

  // ---- the message schedule ----------------------------------------------

  function ScheduleTable(): (t: seq<seq<bv32>>)
    ensures |t| == 8 && forall i :: 0 <= i < 8 ==> |t[i]| == 8
  {
    [[0x61626380, 0x00000000, 0x00000000, 0x00000000, 0x00000000, 0x00000000, 0x00000000, 0x00000000],
     [0x00000000, 0x00000000, 0x00000000, 0x00000000, 0x00000000, 0x00000000, 0x00000000, 0x00000018],
     [0x61626380, 0x000f0000, 0x7da86405, 0x600003c6, 0x3e9d7b78, 0x0183fc00, 0x12dcbfdb, 0xe2e2c38e],
     [0xc8215c1a, 0xb73679a2, 0xe5bc3909, 0x32663c5b, 0x9d209d67, 0xec8726cb, 0x702138a4, 0xd3b7973b],
     [0x93f5997f, 0x3b68ba73, 0xaff4ffc1, 0xf10a5c62, 0x0a8b3996, 0x72af830a, 0x9409e33e, 0x24641522],
     [0x9f47bf94, 0xf0a64f5a, 0x3e246a79, 0x27333ba3, 0x0c4763f2, 0x840abf27, 0x7a290d5d, 0x065c43da],
     [0xfb3e89cb, 0xcc7617db, 0xb9e66c34, 0xa9993667, 0x84badedd, 0xc21462bc, 0x1487472c, 0xb20f7a99],
     [0xef57b9cd, 0xebe6b238, 0x9fe3095e, 0x78bc8d4b, 0xa43fcf15, 0x668b2ff8, 0xeeaba2cc, 0x12b1edeb]]
  }

  function W(i: nat): bv32
    requires i < 64
  {
    ScheduleTable()[i / 8][i % 8]
  }

  /** Word i follows from those before it. */
  predicate Expands(i: nat)
    requires 16 <= i < 64
  {
    W(i) == Expanded(W(i - 16), W(i - 15), W(i - 7), W(i - 2))
  }

  lemma Expand(i: nat, w16: bv32, w15: bv32, w7: bv32, w2: bv32, next: bv32)
    requires 16 <= i < 64 && W(i - 16) == w16 && W(i - 15) == w15 && W(i - 7) == w7 && W(i - 2) == w2 && W(i) == next
    requires Expanded(w16, w15, w7, w2) == next
    ensures Expands(i)
  {
    hide W, Expanded;
  }

  lemma Expand0()
    ensures forall i :: 16 <= i < 20 ==> Expands(i)
  {
    hide Expands;
    Expand(16, 0x61626380, 0x00000000, 0x00000000, 0x00000000, 0x61626380);
    Expand(17, 0x00000000, 0x00000000, 0x00000000, 0x00000018, 0x000f0000);
    Expand(18, 0x00000000, 0x00000000, 0x00000000, 0x61626380, 0x7da86405);
    Expand(19, 0x00000000, 0x00000000, 0x00000000, 0x000f0000, 0x600003c6);
  }

  lemma Expand1()
    ensures forall i :: 20 <= i < 24 ==> Expands(i)
  {
    hide Expands;
    Expand(20, 0x00000000, 0x00000000, 0x00000000, 0x7da86405, 0x3e9d7b78);
    Expand(21, 0x00000000, 0x00000000, 0x00000000, 0x600003c6, 0x0183fc00);
    Expand(22, 0x00000000, 0x00000000, 0x00000018, 0x3e9d7b78, 0x12dcbfdb);
    Expand(23, 0x00000000, 0x00000000, 0x61626380, 0x0183fc00, 0xe2e2c38e);
  }

  lemma Expand2()
    ensures forall i :: 24 <= i < 28 ==> Expands(i)
  {
    hide Expands;
    Expand(24, 0x00000000, 0x00000000, 0x000f0000, 0x12dcbfdb, 0xc8215c1a);
    Expand(25, 0x00000000, 0x00000000, 0x7da86405, 0xe2e2c38e, 0xb73679a2);
    Expand(26, 0x00000000, 0x00000000, 0x600003c6, 0xc8215c1a, 0xe5bc3909);
    Expand(27, 0x00000000, 0x00000000, 0x3e9d7b78, 0xb73679a2, 0x32663c5b);
  }

  lemma Expand3()
    ensures forall i :: 28 <= i < 32 ==> Expands(i)
  {
    hide Expands;
    Expand(28, 0x00000000, 0x00000000, 0x0183fc00, 0xe5bc3909, 0x9d209d67);
    Expand(29, 0x00000000, 0x00000000, 0x12dcbfdb, 0x32663c5b, 0xec8726cb);
    Expand(30, 0x00000000, 0x00000018, 0xe2e2c38e, 0x9d209d67, 0x702138a4);
    Expand(31, 0x00000018, 0x61626380, 0xc8215c1a, 0xec8726cb, 0xd3b7973b);
  }

  lemma Expand4()
    ensures forall i :: 32 <= i < 36 ==> Expands(i)
  {
    hide Expands;
    Expand(32, 0x61626380, 0x000f0000, 0xb73679a2, 0x702138a4, 0x93f5997f);
    Expand(33, 0x000f0000, 0x7da86405, 0xe5bc3909, 0xd3b7973b, 0x3b68ba73);
    Expand(34, 0x7da86405, 0x600003c6, 0x32663c5b, 0x93f5997f, 0xaff4ffc1);
    Expand(35, 0x600003c6, 0x3e9d7b78, 0x9d209d67, 0x3b68ba73, 0xf10a5c62);
  }

  lemma Expand5()
    ensures forall i :: 36 <= i < 40 ==> Expands(i)
  {
    hide Expands;
    Expand(36, 0x3e9d7b78, 0x0183fc00, 0xec8726cb, 0xaff4ffc1, 0x0a8b3996);
    Expand(37, 0x0183fc00, 0x12dcbfdb, 0x702138a4, 0xf10a5c62, 0x72af830a);
    Expand(38, 0x12dcbfdb, 0xe2e2c38e, 0xd3b7973b, 0x0a8b3996, 0x9409e33e);
    Expand(39, 0xe2e2c38e, 0xc8215c1a, 0x93f5997f, 0x72af830a, 0x24641522);
  }

  lemma Expand6()
    ensures forall i :: 40 <= i < 44 ==> Expands(i)
  {
    hide Expands;
    Expand(40, 0xc8215c1a, 0xb73679a2, 0x3b68ba73, 0x9409e33e, 0x9f47bf94);
    Expand(41, 0xb73679a2, 0xe5bc3909, 0xaff4ffc1, 0x24641522, 0xf0a64f5a);
    Expand(42, 0xe5bc3909, 0x32663c5b, 0xf10a5c62, 0x9f47bf94, 0x3e246a79);
    Expand(43, 0x32663c5b, 0x9d209d67, 0x0a8b3996, 0xf0a64f5a, 0x27333ba3);
  }

  lemma Expand7()
    ensures forall i :: 44 <= i < 48 ==> Expands(i)
  {
    hide Expands;
    Expand(44, 0x9d209d67, 0xec8726cb, 0x72af830a, 0x3e246a79, 0x0c4763f2);
    Expand(45, 0xec8726cb, 0x702138a4, 0x9409e33e, 0x27333ba3, 0x840abf27);
    Expand(46, 0x702138a4, 0xd3b7973b, 0x24641522, 0x0c4763f2, 0x7a290d5d);
    Expand(47, 0xd3b7973b, 0x93f5997f, 0x9f47bf94, 0x840abf27, 0x065c43da);
  }

  lemma Expand8()
    ensures forall i :: 48 <= i < 52 ==> Expands(i)
  {
    hide Expands;
    Expand(48, 0x93f5997f, 0x3b68ba73, 0xf0a64f5a, 0x7a290d5d, 0xfb3e89cb);
    Expand(49, 0x3b68ba73, 0xaff4ffc1, 0x3e246a79, 0x065c43da, 0xcc7617db);
    Expand(50, 0xaff4ffc1, 0xf10a5c62, 0x27333ba3, 0xfb3e89cb, 0xb9e66c34);
    Expand(51, 0xf10a5c62, 0x0a8b3996, 0x0c4763f2, 0xcc7617db, 0xa9993667);
  }

  lemma Expand9()
    ensures forall i :: 52 <= i < 56 ==> Expands(i)
  {
    hide Expands;
    Expand(52, 0x0a8b3996, 0x72af830a, 0x840abf27, 0xb9e66c34, 0x84badedd);
    Expand(53, 0x72af830a, 0x9409e33e, 0x7a290d5d, 0xa9993667, 0xc21462bc);
    Expand(54, 0x9409e33e, 0x24641522, 0x065c43da, 0x84badedd, 0x1487472c);
    Expand(55, 0x24641522, 0x9f47bf94, 0xfb3e89cb, 0xc21462bc, 0xb20f7a99);
  }

  lemma Expand10()
    ensures forall i :: 56 <= i < 60 ==> Expands(i)
  {
    hide Expands;
    Expand(56, 0x9f47bf94, 0xf0a64f5a, 0xcc7617db, 0x1487472c, 0xef57b9cd);
    Expand(57, 0xf0a64f5a, 0x3e246a79, 0xb9e66c34, 0xb20f7a99, 0xebe6b238);
    Expand(58, 0x3e246a79, 0x27333ba3, 0xa9993667, 0xef57b9cd, 0x9fe3095e);
    Expand(59, 0x27333ba3, 0x0c4763f2, 0x84badedd, 0xebe6b238, 0x78bc8d4b);
  }

  lemma Expand11()
    ensures forall i :: 60 <= i < 64 ==> Expands(i)
  {
    hide Expands;
    Expand(60, 0x0c4763f2, 0x840abf27, 0xc21462bc, 0x9fe3095e, 0xa43fcf15);
    Expand(61, 0x840abf27, 0x7a290d5d, 0x1487472c, 0x78bc8d4b, 0x668b2ff8);
    Expand(62, 0x7a290d5d, 0x065c43da, 0xb20f7a99, 0xa43fcf15, 0xeeaba2cc);
    Expand(63, 0x065c43da, 0xfb3e89cb, 0xef57b9cd, 0x668b2ff8, 0x12b1edeb);
  }

  // ---- the rounds --------------------------------------------------------

  /** The working variables before round i. */
  predicate Reaches(i: nat, s: Words)
    requires i <= 64
  {
    Rounds(INITIAL, seq(64, j requires 0 <= j < 64 => W(j)), i) == s
  }

  lemma Turn(i: nat, s: Words, k: bv32, w: bv32)
    requires i < 64 && Reaches(i, s) && RoundConstant(i) == k && W(i) == w
    ensures Reaches(i + 1, Round(s, k, w))
  {
    hide W, RoundConstant, Round;
  }

  lemma Turns0()
    requires Reaches(0, Words(0x6a09e667, 0xbb67ae85, 0x3c6ef372, 0xa54ff53a, 0x510e527f, 0x9b05688c, 0x1f83d9ab, 0x5be0cd19))
    ensures Reaches(4, Words(0xd550f666, 0xc8c347a7, 0x5a6ad9ad, 0x5d6aebcd, 0x24e00850, 0xf92939eb, 0x78ce7989, 0xfa2a4622))
  {
    hide Reaches;
    Turn(0, Words(0x6a09e667, 0xbb67ae85, 0x3c6ef372, 0xa54ff53a, 0x510e527f, 0x9b05688c, 0x1f83d9ab, 0x5be0cd19), 0x428a2f98, 0x61626380);
    Turn(1, Words(0x5d6aebcd, 0x6a09e667, 0xbb67ae85, 0x3c6ef372, 0xfa2a4622, 0x510e527f, 0x9b05688c, 0x1f83d9ab), 0x71374491, 0x00000000);
    Turn(2, Words(0x5a6ad9ad, 0x5d6aebcd, 0x6a09e667, 0xbb67ae85, 0x78ce7989, 0xfa2a4622, 0x510e527f, 0x9b05688c), 0xb5c0fbcf, 0x00000000);
    Turn(3, Words(0xc8c347a7, 0x5a6ad9ad, 0x5d6aebcd, 0x6a09e667, 0xf92939eb, 0x78ce7989, 0xfa2a4622, 0x510e527f), 0xe9b5dba5, 0x00000000);
  }

  lemma Turns1()
    requires Reaches(4, Words(0xd550f666, 0xc8c347a7, 0x5a6ad9ad, 0x5d6aebcd, 0x24e00850, 0xf92939eb, 0x78ce7989, 0xfa2a4622))
    ensures Reaches(8, Words(0x85a07b5f, 0xe5030380, 0x2b4209f5, 0x04409a6a, 0x0c657a79, 0x9b27a401, 0x714260ad, 0x43ada245))
  {
    hide Reaches;
    Turn(4, Words(0xd550f666, 0xc8c347a7, 0x5a6ad9ad, 0x5d6aebcd, 0x24e00850, 0xf92939eb, 0x78ce7989, 0xfa2a4622), 0x3956c25b, 0x00000000);
    Turn(5, Words(0x04409a6a, 0xd550f666, 0xc8c347a7, 0x5a6ad9ad, 0x43ada245, 0x24e00850, 0xf92939eb, 0x78ce7989), 0x59f111f1, 0x00000000);
    Turn(6, Words(0x2b4209f5, 0x04409a6a, 0xd550f666, 0xc8c347a7, 0x714260ad, 0x43ada245, 0x24e00850, 0xf92939eb), 0x923f82a4, 0x00000000);
    Turn(7, Words(0xe5030380, 0x2b4209f5, 0x04409a6a, 0xd550f666, 0x9b27a401, 0x714260ad, 0x43ada245, 0x24e00850), 0xab1c5ed5, 0x00000000);
  }

  lemma Turns2()
    requires Reaches(8, Words(0x85a07b5f, 0xe5030380, 0x2b4209f5, 0x04409a6a, 0x0c657a79, 0x9b27a401, 0x714260ad, 0x43ada245))
    ensures Reaches(12, Words(0xf71fc5a9, 0x4798a3f4, 0x8c87346b, 0x8e04ecb9, 0x816fd6e9, 0x436b23e8, 0x1cc92596, 0x32ca2d8c))
  {
    hide Reaches;
    Turn(8, Words(0x85a07b5f, 0xe5030380, 0x2b4209f5, 0x04409a6a, 0x0c657a79, 0x9b27a401, 0x714260ad, 0x43ada245), 0xd807aa98, 0x00000000);
    Turn(9, Words(0x8e04ecb9, 0x85a07b5f, 0xe5030380, 0x2b4209f5, 0x32ca2d8c, 0x0c657a79, 0x9b27a401, 0x714260ad), 0x12835b01, 0x00000000);
    Turn(10, Words(0x8c87346b, 0x8e04ecb9, 0x85a07b5f, 0xe5030380, 0x1cc92596, 0x32ca2d8c, 0x0c657a79, 0x9b27a401), 0x243185be, 0x00000000);
    Turn(11, Words(0x4798a3f4, 0x8c87346b, 0x8e04ecb9, 0x85a07b5f, 0x436b23e8, 0x1cc92596, 0x32ca2d8c, 0x0c657a79), 0x550c7dc3, 0x00000000);
  }

  lemma Turns3()
    requires Reaches(12, Words(0xf71fc5a9, 0x4798a3f4, 0x8c87346b, 0x8e04ecb9, 0x816fd6e9, 0x436b23e8, 0x1cc92596, 0x32ca2d8c))
    ensures Reaches(16, Words(0xb0fa238e, 0xc0645fde, 0xd932eb16, 0x87912990, 0x07590dcd, 0x0b92f20c, 0x745a48de, 0x1e578218))
  {
    hide Reaches;
    Turn(12, Words(0xf71fc5a9, 0x4798a3f4, 0x8c87346b, 0x8e04ecb9, 0x816fd6e9, 0x436b23e8, 0x1cc92596, 0x32ca2d8c), 0x72be5d74, 0x00000000);
    Turn(13, Words(0x87912990, 0xf71fc5a9, 0x4798a3f4, 0x8c87346b, 0x1e578218, 0x816fd6e9, 0x436b23e8, 0x1cc92596), 0x80deb1fe, 0x00000000);
    Turn(14, Words(0xd932eb16, 0x87912990, 0xf71fc5a9, 0x4798a3f4, 0x745a48de, 0x1e578218, 0x816fd6e9, 0x436b23e8), 0x9bdc06a7, 0x00000000);
    Turn(15, Words(0xc0645fde, 0xd932eb16, 0x87912990, 0xf71fc5a9, 0x0b92f20c, 0x745a48de, 0x1e578218, 0x816fd6e9), 0xc19bf174, 0x00000018);
  }

  lemma Turns4()
    requires Reaches(16, Words(0xb0fa238e, 0xc0645fde, 0xd932eb16, 0x87912990, 0x07590dcd, 0x0b92f20c, 0x745a48de, 0x1e578218))
    ensures Reaches(20, Words(0xe1f20c33, 0xfe777bbf, 0xc2fbd9d1, 0x21da9a9b, 0xb0638179, 0xcc899961, 0x846ee454, 0x8034229c))
  {
    hide Reaches;
    Turn(16, Words(0xb0fa238e, 0xc0645fde, 0xd932eb16, 0x87912990, 0x07590dcd, 0x0b92f20c, 0x745a48de, 0x1e578218), 0xe49b69c1, 0x61626380);
    Turn(17, Words(0x21da9a9b, 0xb0fa238e, 0xc0645fde, 0xd932eb16, 0x8034229c, 0x07590dcd, 0x0b92f20c, 0x745a48de), 0xefbe4786, 0x000f0000);
    Turn(18, Words(0xc2fbd9d1, 0x21da9a9b, 0xb0fa238e, 0xc0645fde, 0x846ee454, 0x8034229c, 0x07590dcd, 0x0b92f20c), 0x0fc19dc6, 0x7da86405);
    Turn(19, Words(0xfe777bbf, 0xc2fbd9d1, 0x21da9a9b, 0xb0fa238e, 0xcc899961, 0x846ee454, 0x8034229c, 0x07590dcd), 0x240ca1cc, 0x600003c6);
  }

  lemma Turns5()
    requires Reaches(20, Words(0xe1f20c33, 0xfe777bbf, 0xc2fbd9d1, 0x21da9a9b, 0xb0638179, 0xcc899961, 0x846ee454, 0x8034229c))
    ensures Reaches(24, Words(0xc5d53d8d, 0xa7a3623f, 0xc2606d6d, 0x9dc68b63, 0xaa47c347, 0x49f5114a, 0xe1257970, 0x8ada8930))
  {
    hide Reaches;
    Turn(20, Words(0xe1f20c33, 0xfe777bbf, 0xc2fbd9d1, 0x21da9a9b, 0xb0638179, 0xcc899961, 0x846ee454, 0x8034229c), 0x2de92c6f, 0x3e9d7b78);
    Turn(21, Words(0x9dc68b63, 0xe1f20c33, 0xfe777bbf, 0xc2fbd9d1, 0x8ada8930, 0xb0638179, 0xcc899961, 0x846ee454), 0x4a7484aa, 0x0183fc00);
    Turn(22, Words(0xc2606d6d, 0x9dc68b63, 0xe1f20c33, 0xfe777bbf, 0xe1257970, 0x8ada8930, 0xb0638179, 0xcc899961), 0x5cb0a9dc, 0x12dcbfdb);
    Turn(23, Words(0xa7a3623f, 0xc2606d6d, 0x9dc68b63, 0xe1f20c33, 0x49f5114a, 0xe1257970, 0x8ada8930, 0xb0638179), 0x76f988da, 0xe2e2c38e);
  }

  lemma Turns6()
    requires Reaches(24, Words(0xc5d53d8d, 0xa7a3623f, 0xc2606d6d, 0x9dc68b63, 0xaa47c347, 0x49f5114a, 0xe1257970, 0x8ada8930))
    ensures Reaches(28, Words(0x77d37528, 0xb62ec4bc, 0xcde8037d, 0x1c2c2838, 0xedffbff8, 0xc74c6516, 0x14383d8e, 0x2823ef91))
  {
    hide Reaches;
    Turn(24, Words(0xc5d53d8d, 0xa7a3623f, 0xc2606d6d, 0x9dc68b63, 0xaa47c347, 0x49f5114a, 0xe1257970, 0x8ada8930), 0x983e5152, 0xc8215c1a);
    Turn(25, Words(0x1c2c2838, 0xc5d53d8d, 0xa7a3623f, 0xc2606d6d, 0x2823ef91, 0xaa47c347, 0x49f5114a, 0xe1257970), 0xa831c66d, 0xb73679a2);
    Turn(26, Words(0xcde8037d, 0x1c2c2838, 0xc5d53d8d, 0xa7a3623f, 0x14383d8e, 0x2823ef91, 0xaa47c347, 0x49f5114a), 0xb00327c8, 0xe5bc3909);
    Turn(27, Words(0xb62ec4bc, 0xcde8037d, 0x1c2c2838, 0xc5d53d8d, 0xc74c6516, 0x14383d8e, 0x2823ef91, 0xaa47c347), 0xbf597fc7, 0x32663c5b);
  }

  lemma Turns7()
    requires Reaches(28, Words(0x77d37528, 0xb62ec4bc, 0xcde8037d, 0x1c2c2838, 0xedffbff8, 0xc74c6516, 0x14383d8e, 0x2823ef91))
    ensures Reaches(32, Words(0x73b33bf5, 0xea992a22, 0xa0060b30, 0x363482c9, 0xba591112, 0x0109ab3a, 0xade79437, 0x6112a3b7))
  {
    hide Reaches;
    Turn(28, Words(0x77d37528, 0xb62ec4bc, 0xcde8037d, 0x1c2c2838, 0xedffbff8, 0xc74c6516, 0x14383d8e, 0x2823ef91), 0xc6e00bf3, 0x9d209d67);
    Turn(29, Words(0x363482c9, 0x77d37528, 0xb62ec4bc, 0xcde8037d, 0x6112a3b7, 0xedffbff8, 0xc74c6516, 0x14383d8e), 0xd5a79147, 0xec8726cb);
    Turn(30, Words(0xa0060b30, 0x363482c9, 0x77d37528, 0xb62ec4bc, 0xade79437, 0x6112a3b7, 0xedffbff8, 0xc74c6516), 0x06ca6351, 0x702138a4);
    Turn(31, Words(0xea992a22, 0xa0060b30, 0x363482c9, 0x77d37528, 0x0109ab3a, 0xade79437, 0x6112a3b7, 0xedffbff8), 0x14292967, 0xd3b7973b);
  }

  lemma Turns8()
    requires Reaches(32, Words(0x73b33bf5, 0xea992a22, 0xa0060b30, 0x363482c9, 0xba591112, 0x0109ab3a, 0xade79437, 0x6112a3b7))
    ensures Reaches(36, Words(0x65a0cfe4, 0xa9a7738c, 0xfe604df5, 0x98e12507, 0xf4b002d6, 0x085f3833, 0x59249dd3, 0x9cd9f5f6))
  {
    hide Reaches;
    Turn(32, Words(0x73b33bf5, 0xea992a22, 0xa0060b30, 0x363482c9, 0xba591112, 0x0109ab3a, 0xade79437, 0x6112a3b7), 0x27b70a85, 0x93f5997f);
    Turn(33, Words(0x98e12507, 0x73b33bf5, 0xea992a22, 0xa0060b30, 0x9cd9f5f6, 0xba591112, 0x0109ab3a, 0xade79437), 0x2e1b2138, 0x3b68ba73);
    Turn(34, Words(0xfe604df5, 0x98e12507, 0x73b33bf5, 0xea992a22, 0x59249dd3, 0x9cd9f5f6, 0xba591112, 0x0109ab3a), 0x4d2c6dfc, 0xaff4ffc1);
    Turn(35, Words(0xa9a7738c, 0xfe604df5, 0x98e12507, 0x73b33bf5, 0x085f3833, 0x59249dd3, 0x9cd9f5f6, 0xba591112), 0x53380d13, 0xf10a5c62);
  }

  lemma Turns9()
    requires Reaches(36, Words(0x65a0cfe4, 0xa9a7738c, 0xfe604df5, 0x98e12507, 0xf4b002d6, 0x085f3833, 0x59249dd3, 0x9cd9f5f6))
    ensures Reaches(40, Words(0x79ea687a, 0x6dc57a8a, 0x34df1604, 0x41a65cb1, 0x1efbc0a0, 0xf0781bc8, 0xa507a53d, 0x0772a26b))
  {
    hide Reaches;
    Turn(36, Words(0x65a0cfe4, 0xa9a7738c, 0xfe604df5, 0x98e12507, 0xf4b002d6, 0x085f3833, 0x59249dd3, 0x9cd9f5f6), 0x650a7354, 0x0a8b3996);
    Turn(37, Words(0x41a65cb1, 0x65a0cfe4, 0xa9a7738c, 0xfe604df5, 0x0772a26b, 0xf4b002d6, 0x085f3833, 0x59249dd3), 0x766a0abb, 0x72af830a);
    Turn(38, Words(0x34df1604, 0x41a65cb1, 0x65a0cfe4, 0xa9a7738c, 0xa507a53d, 0x0772a26b, 0xf4b002d6, 0x085f3833), 0x81c2c92e, 0x9409e33e);
    Turn(39, Words(0x6dc57a8a, 0x34df1604, 0x41a65cb1, 0x65a0cfe4, 0xf0781bc8, 0xa507a53d, 0x0772a26b, 0xf4b002d6), 0x92722c85, 0x24641522);
  }

  lemma Turns10()
    requires Reaches(40, Words(0x79ea687a, 0x6dc57a8a, 0x34df1604, 0x41a65cb1, 0x1efbc0a0, 0xf0781bc8, 0xa507a53d, 0x0772a26b))
    ensures Reaches(44, Words(0x9d4baf93, 0x17aa0dfe, 0xdf46652f, 0xd6670766, 0xfda24c2e, 0xdecd4715, 0x838b2711, 0x26352d63))
  {
    hide Reaches;
    Turn(40, Words(0x79ea687a, 0x6dc57a8a, 0x34df1604, 0x41a65cb1, 0x1efbc0a0, 0xf0781bc8, 0xa507a53d, 0x0772a26b), 0xa2bfe8a1, 0x9f47bf94);
    Turn(41, Words(0xd6670766, 0x79ea687a, 0x6dc57a8a, 0x34df1604, 0x26352d63, 0x1efbc0a0, 0xf0781bc8, 0xa507a53d), 0xa81a664b, 0xf0a64f5a);
    Turn(42, Words(0xdf46652f, 0xd6670766, 0x79ea687a, 0x6dc57a8a, 0x838b2711, 0x26352d63, 0x1efbc0a0, 0xf0781bc8), 0xc24b8b70, 0x3e246a79);
    Turn(43, Words(0x17aa0dfe, 0xdf46652f, 0xd6670766, 0x79ea687a, 0xdecd4715, 0x838b2711, 0x26352d63, 0x1efbc0a0), 0xc76c51a3, 0x27333ba3);
  }

  lemma Turns11()
    requires Reaches(44, Words(0x9d4baf93, 0x17aa0dfe, 0xdf46652f, 0xd6670766, 0xfda24c2e, 0xdecd4715, 0x838b2711, 0x26352d63))
    ensures Reaches(48, Words(0x4172328d, 0xa14c14b0, 0x72ab4b91, 0x26628815, 0xfecf0bc6, 0xd57b94a9, 0xb7755da1, 0xa80f11f0))
  {
    hide Reaches;
    Turn(44, Words(0x9d4baf93, 0x17aa0dfe, 0xdf46652f, 0xd6670766, 0xfda24c2e, 0xdecd4715, 0x838b2711, 0x26352d63), 0xd192e819, 0x0c4763f2);
    Turn(45, Words(0x26628815, 0x9d4baf93, 0x17aa0dfe, 0xdf46652f, 0xa80f11f0, 0xfda24c2e, 0xdecd4715, 0x838b2711), 0xd6990624, 0x840abf27);
    Turn(46, Words(0x72ab4b91, 0x26628815, 0x9d4baf93, 0x17aa0dfe, 0xb7755da1, 0xa80f11f0, 0xfda24c2e, 0xdecd4715), 0xf40e3585, 0x7a290d5d);
    Turn(47, Words(0xa14c14b0, 0x72ab4b91, 0x26628815, 0x9d4baf93, 0xd57b94a9, 0xb7755da1, 0xa80f11f0, 0xfda24c2e), 0x106aa070, 0x065c43da);
  }

  lemma Turns12()
    requires Reaches(48, Words(0x4172328d, 0xa14c14b0, 0x72ab4b91, 0x26628815, 0xfecf0bc6, 0xd57b94a9, 0xb7755da1, 0xa80f11f0))
    ensures Reaches(52, Words(0x886e7a22, 0x7a0508a1, 0xf11bfaa8, 0x05757ceb, 0x49231c1e, 0x52f1ccf7, 0x6e5c390c, 0xbd714038))
  {
    hide Reaches;
    Turn(48, Words(0x4172328d, 0xa14c14b0, 0x72ab4b91, 0x26628815, 0xfecf0bc6, 0xd57b94a9, 0xb7755da1, 0xa80f11f0), 0x19a4c116, 0xfb3e89cb);
    Turn(49, Words(0x05757ceb, 0x4172328d, 0xa14c14b0, 0x72ab4b91, 0xbd714038, 0xfecf0bc6, 0xd57b94a9, 0xb7755da1), 0x1e376c08, 0xcc7617db);
    Turn(50, Words(0xf11bfaa8, 0x05757ceb, 0x4172328d, 0xa14c14b0, 0x6e5c390c, 0xbd714038, 0xfecf0bc6, 0xd57b94a9), 0x2748774c, 0xb9e66c34);
    Turn(51, Words(0x7a0508a1, 0xf11bfaa8, 0x05757ceb, 0x4172328d, 0x52f1ccf7, 0x6e5c390c, 0xbd714038, 0xfecf0bc6), 0x34b0bcb5, 0xa9993667);
  }

  lemma Turns13()
    requires Reaches(52, Words(0x886e7a22, 0x7a0508a1, 0xf11bfaa8, 0x05757ceb, 0x49231c1e, 0x52f1ccf7, 0x6e5c390c, 0xbd714038))
    ensures Reaches(56, Words(0x38cc9913, 0x3ec45cdb, 0xf5702fdb, 0x101fd28f, 0x54cb266b, 0xe50e1b4f, 0x9f4787c3, 0x529e7d00))
  {
    hide Reaches;
    Turn(52, Words(0x886e7a22, 0x7a0508a1, 0xf11bfaa8, 0x05757ceb, 0x49231c1e, 0x52f1ccf7, 0x6e5c390c, 0xbd714038), 0x391c0cb3, 0x84badedd);
    Turn(53, Words(0x101fd28f, 0x886e7a22, 0x7a0508a1, 0xf11bfaa8, 0x529e7d00, 0x49231c1e, 0x52f1ccf7, 0x6e5c390c), 0x4ed8aa4a, 0xc21462bc);
    Turn(54, Words(0xf5702fdb, 0x101fd28f, 0x886e7a22, 0x7a0508a1, 0x9f4787c3, 0x529e7d00, 0x49231c1e, 0x52f1ccf7), 0x5b9cca4f, 0x1487472c);
    Turn(55, Words(0x3ec45cdb, 0xf5702fdb, 0x101fd28f, 0x886e7a22, 0xe50e1b4f, 0x9f4787c3, 0x529e7d00, 0x49231c1e), 0x682e6ff3, 0xb20f7a99);
  }

  lemma Turns14()
    requires Reaches(56, Words(0x38cc9913, 0x3ec45cdb, 0xf5702fdb, 0x101fd28f, 0x54cb266b, 0xe50e1b4f, 0x9f4787c3, 0x529e7d00))
    ensures Reaches(60, Words(0xb6ae8fff, 0xffb70472, 0xc062d46f, 0xfcd1887b, 0xb21bad3d, 0x6d83bfc6, 0x7e44008e, 0x9b5e906c))
  {
    hide Reaches;
    Turn(56, Words(0x38cc9913, 0x3ec45cdb, 0xf5702fdb, 0x101fd28f, 0x54cb266b, 0xe50e1b4f, 0x9f4787c3, 0x529e7d00), 0x748f82ee, 0xef57b9cd);
    Turn(57, Words(0xfcd1887b, 0x38cc9913, 0x3ec45cdb, 0xf5702fdb, 0x9b5e906c, 0x54cb266b, 0xe50e1b4f, 0x9f4787c3), 0x78a5636f, 0xebe6b238);
    Turn(58, Words(0xc062d46f, 0xfcd1887b, 0x38cc9913, 0x3ec45cdb, 0x7e44008e, 0x9b5e906c, 0x54cb266b, 0xe50e1b4f), 0x84c87814, 0x9fe3095e);
    Turn(59, Words(0xffb70472, 0xc062d46f, 0xfcd1887b, 0x38cc9913, 0x6d83bfc6, 0x7e44008e, 0x9b5e906c, 0x54cb266b), 0x8cc70208, 0x78bc8d4b);
  }

  lemma Turns15()
    requires Reaches(60, Words(0xb6ae8fff, 0xffb70472, 0xc062d46f, 0xfcd1887b, 0xb21bad3d, 0x6d83bfc6, 0x7e44008e, 0x9b5e906c))
    ensures Reaches(64, Words(0x506e3058, 0xd39a2165, 0x04d24d6c, 0xb85e2ce9, 0x5ef50f24, 0xfb121210, 0x948d25b6, 0x961f4894))
  {
    hide Reaches;
    Turn(60, Words(0xb6ae8fff, 0xffb70472, 0xc062d46f, 0xfcd1887b, 0xb21bad3d, 0x6d83bfc6, 0x7e44008e, 0x9b5e906c), 0x90befffa, 0xa43fcf15);
    Turn(61, Words(0xb85e2ce9, 0xb6ae8fff, 0xffb70472, 0xc062d46f, 0x961f4894, 0xb21bad3d, 0x6d83bfc6, 0x7e44008e), 0xa4506ceb, 0x668b2ff8);
    Turn(62, Words(0x04d24d6c, 0xb85e2ce9, 0xb6ae8fff, 0xffb70472, 0x948d25b6, 0x961f4894, 0xb21bad3d, 0x6d83bfc6), 0xbef9a3f7, 0xeeaba2cc);
    Turn(63, Words(0xd39a2165, 0x04d24d6c, 0xb85e2ce9, 0xb6ae8fff, 0xfb121210, 0x948d25b6, 0x961f4894, 0xb21bad3d), 0xc67178f2, 0x12b1edeb);
  }

  /** Each row takes up where the one before it left off. */
  lemma AllTurns()
    ensures Reaches(64, Words(0x506e3058, 0xd39a2165, 0x04d24d6c, 0xb85e2ce9, 0x5ef50f24, 0xfb121210, 0x948d25b6, 0x961f4894))
  {
    hide Reaches;
    Start();
    Turns0();
    Turns1();
    Turns2();
    Turns3();
    Turns4();
    Turns5();
    Turns6();
    Turns7();
    Turns8();
    Turns9();
    Turns10();
    Turns11();
    Turns12();
    Turns13();
    Turns14();
    Turns15();
  }

  lemma Start()
    ensures Reaches(0, Words(0x6a09e667, 0xbb67ae85, 0x3c6ef372, 0xa54ff53a, 0x510e527f, 0x9b05688c, 0x1f83d9ab, 0x5be0cd19))
  {
  }

  // ---- the block and the digest ------------------------------------------

  /** The padded message: the text, the marker, zeros, and the length in bits, which is 24. */
  lemma PaddedIs(i: nat)
    requires i < BLOCK
    ensures |Padded(ABC)| == BLOCK
    ensures Padded(ABC)[i] == if i < 3 then ABC[i] else if i == 3 then 0x80 else if i == 63 then 24 else 0
  {
    LengthIs();
    assert ZeroCount(3) == 52;
  }

  lemma LengthIs()
    ensures BigBytes(24, 8) == [0, 0, 0, 0, 0, 0, 0, 24]
  {
    assert BigBytes(0, 3) == [0, 0, 0] && BigBytes(0, 7) == BigBytes(0, 6) + [0] && BigBytes(0, 6) == BigBytes(0, 5) + [0];
  }

  lemma WordIs(i: nat)
    requires i < 16
    ensures |Padded(ABC)| == BLOCK && WordAt(Padded(ABC), i) == W(i)
  {
    hide Padded, W, WordOf;
    PaddedIs(4 * i);
    PaddedIs(4 * i + 1);
    PaddedIs(4 * i + 2);
    PaddedIs(4 * i + 3);
    FirstWords(i);
  }

  lemma FirstWords(i: nat)
    requires i < 16
    ensures W(i) == if i == 0 then WordOf(0x61, 0x62, 0x63, 0x80) else if i == 15 then WordOf(0, 0, 0, 24) else WordOf(0, 0, 0, 0)
  {
    assert WordOf(0x61, 0x62, 0x63, 0x80) == 0x61626380 && WordOf(0, 0, 0, 24) == 24 && WordOf(0, 0, 0, 0) == 0;
    hide WordOf;
    assert W(0) == 0x61626380 && W(15) == 24;
    assert W(1) == 0 && W(2) == 0 && W(3) == 0 && W(4) == 0 && W(5) == 0 && W(6) == 0 && W(7) == 0;
    assert W(8) == 0 && W(9) == 0 && W(10) == 0 && W(11) == 0 && W(12) == 0 && W(13) == 0 && W(14) == 0;
  }

  lemma {:induction false} ScheduleIs(n: nat)
    requires n <= 64
    ensures |Padded(ABC)| == BLOCK && forall k :: 0 <= k < n ==> Schedule(Padded(ABC), n)[k] == W(k)
  {
    hide W, WordAt, Expanded, Padded;
    PaddedIs(0);
    if n > 0 {
      ScheduleIs(n - 1);
      if n <= 16 {
        WordIs(n - 1);
      } else {
        AllExpand(n - 1);
      }
    }
  }

  lemma AllExpand(i: nat)
    requires 16 <= i < 64
    ensures Expands(i)
  {
    hide Expands;
    Expand0();
    Expand1();
    Expand2();
    Expand3();
    Expand4();
    Expand5();
    Expand6();
    Expand7();
    Expand8();
    Expand9();
    Expand10();
    Expand11();
  }

  const DIGEST: Bytes :=
    [0xba, 0x78, 0x16, 0xbf, 0x8f, 0x01, 0xcf, 0xea, 0x41, 0x41, 0x40, 0xde, 0x5d, 0xae, 0x22, 0x23,
     0xb0, 0x03, 0x61, 0xa3, 0x96, 0x17, 0x7a, 0x9c, 0xb4, 0x10, 0xff, 0x61, 0xf2, 0x00, 0x15, 0xad]

  lemma CompressedIs()
    ensures |Padded(ABC)| == BLOCK
    ensures Compressed(INITIAL, Padded(ABC)) == Words(0xba7816bf, 0x8f01cfea, 0x414140de, 0x5dae2223, 0xb00361a3, 0x96177a9c, 0xb410ff61, 0xf20015ad)
  {
    hide Padded, Schedule, Rounds, W;
    PaddedIs(0);
    ScheduleIs(64);
    AllTurns();
    assert Schedule(Padded(ABC), 64) == seq(64, j requires 0 <= j < 64 => W(j));
  }

  lemma FourBytes(n: nat, b0: Byte, b1: Byte, b2: Byte, b3: Byte)
    requires n == ((b0 * 256 + b1) * 256 + b2) * 256 + b3
    ensures BigBytes(n, 4) == [b0, b1, b2, b3]
  {
    Digit((b0 * 256 + b1) * 256 + b2, b3, 3);
    Digit(b0 * 256 + b1, b2, 2);
    Digit(b0, b1, 1);
    Digit(0, b0, 0);
  }

  lemma Digit(high: nat, low: Byte, n: nat)
    ensures BigBytes(high * 256 + low, n + 1) == BigBytes(high, n) + [low]
  {
  }

  lemma WordOut(w: bv32, n: nat, b0: Byte, b1: Byte, b2: Byte, b3: Byte)
    requires w as nat == n == ((b0 * 256 + b1) * 256 + b2) * 256 + b3
    ensures WordBytes(w) == [b0, b1, b2, b3]
  {
    FourBytes(n, b0, b1, b2, b3);
  }

  lemma FirstHalf()
    ensures WordBytes(0xba7816bf) == [0xba, 0x78, 0x16, 0xbf]
            && WordBytes(0x8f01cfea) == [0x8f, 0x01, 0xcf, 0xea]
            && WordBytes(0x414140de) == [0x41, 0x41, 0x40, 0xde]
            && WordBytes(0x5dae2223) == [0x5d, 0xae, 0x22, 0x23]
  {
    hide WordBytes;
    WordOut(0xba7816bf, 0xba7816bf, 0xba, 0x78, 0x16, 0xbf);
    WordOut(0x8f01cfea, 0x8f01cfea, 0x8f, 0x01, 0xcf, 0xea);
    WordOut(0x414140de, 0x414140de, 0x41, 0x41, 0x40, 0xde);
    WordOut(0x5dae2223, 0x5dae2223, 0x5d, 0xae, 0x22, 0x23);
  }

  lemma SecondHalf()
    ensures WordBytes(0xb00361a3) == [0xb0, 0x03, 0x61, 0xa3]
            && WordBytes(0x96177a9c) == [0x96, 0x17, 0x7a, 0x9c]
            && WordBytes(0xb410ff61) == [0xb4, 0x10, 0xff, 0x61]
            && WordBytes(0xf20015ad) == [0xf2, 0x00, 0x15, 0xad]
  {
    hide WordBytes;
    WordOut(0xb00361a3, 0xb00361a3, 0xb0, 0x03, 0x61, 0xa3);
    WordOut(0x96177a9c, 0x96177a9c, 0x96, 0x17, 0x7a, 0x9c);
    WordOut(0xb410ff61, 0xb410ff61, 0xb4, 0x10, 0xff, 0x61);
    WordOut(0xf20015ad, 0xf20015ad, 0xf2, 0x00, 0x15, 0xad);
  }

  lemma WordsOut()
    ensures Output(Words(0xba7816bf, 0x8f01cfea, 0x414140de, 0x5dae2223, 0xb00361a3, 0x96177a9c, 0xb410ff61, 0xf20015ad)) == DIGEST
  {
    hide WordBytes;
    FirstHalf();
    SecondHalf();
  }

  /** The digest of abc is the published one. */
  lemma DigestIs()
    ensures Hash(ABC) == DIGEST
  {
    hide Padded, Compressed, Output;
    CompressedIs();
    WordsOut();
    OneMoreBlock(INITIAL, [], Padded(ABC));
    assert [] + Padded(ABC) == Padded(ABC);
  }
}
