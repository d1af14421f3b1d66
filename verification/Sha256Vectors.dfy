/** SHA-256 pinned to its published numbers: the example of a one-block message, and what the round functions
    and constants of FIPS 180-4 are. */
module Sha256Vectors {
  import opened ByteBits
  import opened Sha256

  // ----------------------------------------------------- the functions, bit by bit

  /** Ch chooses, for any set of bits m: the bits of y where x has ones, those of z where it has zeros. */
  lemma ChChooses(x: Word, y: Word, z: Word, m: Word)
    ensures x & m == m ==> Ch(x, y, z) & m == y & m
    ensures x & m == 0 ==> Ch(x, y, z) & m == z & m
  {
  }

  /** Bit k of a rotation by n is the bit n places above it, around the word. */
  lemma RotationBits(x: Word, n: Word, k: Word)
    requires n < 32 && k < 32
    ensures Has(RotR(x, n), k) <==> Has(x, (k + n) & 31)
  {
    hide Has;
    RawRotation(x, n, k);
  }

  lemma RawRotation(x: Word, n: Word, k: Word)
    requires n < 32 && k < 32
    ensures Has((x >> n) | (x << (32 - n)), k) <==> Has(x, (k + n) & 31)
  {
  }

  lemma XorBits(x: Word, y: Word, z: Word, k: Word)
    requires k < 32
    ensures Has(Xor3(x, y, z), k) <==> ((Has(x, k) != Has(y, k)) != Has(z, k))
  {
    hide Has;
    RawXor(x, y, z, k);
  }

  lemma RawXor(x: Word, y: Word, z: Word, k: Word)
    requires k < 32
    ensures Has(x ^ y ^ z, k) <==> ((Has(x, k) != Has(y, k)) != Has(z, k))
  {
  }

  lemma ShiftBits(x: Word, n: Word, k: Word)
    requires (n == 3 || n == 10) && k < 32
    ensures Has(Shr(x, n), k) <==> k < 32 - n && Has(x, k + n)
  {
    hide Has;
    RawShift(x, n, k);
  }

  lemma RawShift(x: Word, n: Word, k: Word)
    requires (n == 3 || n == 10) && k < 32
    ensures Has(x >> n, k) <==> k < 32 - n && Has(x, k + n)
  {
  }

  /** The four sums of FIPS 180-4, section 4.1.2, bit by bit: which three bits each bit is the parity of. */
  lemma Sum0Bits(x: Word, k: Word)
    requires k < 32
    ensures Has(Sum0(x), k) <==> (Has(x, (k + 2) & 31) != Has(x, (k + 13) & 31)) != Has(x, (k + 22) & 31)
  {
    hide Has, RotR, Shr, Xor3;
    RotationBits(x, 2, k);
    RotationBits(x, 13, k);
    RotationBits(x, 22, k);
    XorBits(RotR(x, 2), RotR(x, 13), RotR(x, 22), k);
  }

  lemma Sum1Bits(x: Word, k: Word)
    requires k < 32
    ensures Has(Sum1(x), k) <==> (Has(x, (k + 6) & 31) != Has(x, (k + 11) & 31)) != Has(x, (k + 25) & 31)
  {
    hide Has, RotR, Shr, Xor3;
    RotationBits(x, 6, k);
    RotationBits(x, 11, k);
    RotationBits(x, 25, k);
    XorBits(RotR(x, 6), RotR(x, 11), RotR(x, 25), k);
  }

  lemma Sigma0Bits(x: Word, k: Word)
    requires k < 32
    ensures Has(Sigma0(x), k) <==> (Has(x, (k + 7) & 31) != Has(x, (k + 18) & 31)) != (k < 29 && Has(x, k + 3))
  {
    hide Has, RotR, Shr, Xor3;
    RotationBits(x, 7, k);
    RotationBits(x, 18, k);
    ShiftBits(x, 3, k);
    XorBits(RotR(x, 7), RotR(x, 18), Shr(x, 3), k);
  }

  lemma Sigma1Bits(x: Word, k: Word)
    requires k < 32
    ensures Has(Sigma1(x), k) <==> (Has(x, (k + 17) & 31) != Has(x, (k + 19) & 31)) != (k < 22 && Has(x, k + 10))
  {
    hide Has, RotR, Shr, Xor3;
    RotationBits(x, 17, k);
    RotationBits(x, 19, k);
    ShiftBits(x, 10, k);
    XorBits(RotR(x, 17), RotR(x, 19), Shr(x, 10), k);
  }

  /** The words of a block hold its bytes, the first one highest. */
  lemma BlockBytes(b: seq<Byte>, i: nat)
    requires 4 * i + 3 < |b|
    ensures var w := BlockWord(b, i);
      && w >> 24 == b[4 * i] as Word && (w >> 16) & 0xFF == b[4 * i + 1] as Word
      && (w >> 8) & 0xFF == b[4 * i + 2] as Word && w & 0xFF == b[4 * i + 3] as Word
  {
  }

  /** Maj is the majority: wherever two of the three agree, so does it. */
  lemma MajAgrees(x: Word, y: Word, z: Word, m: Word)
    ensures x & m == y & m ==> Maj(x, y, z) & m == x & m
    ensures x & m == z & m ==> Maj(x, y, z) & m == x & m
    ensures y & m == z & m ==> Maj(x, y, z) & m == y & m
  {
    hide Maj;
    if x & m == y & m { FirstTwoAgree(x, y, z, m); }
    if x & m == z & m { OuterTwoAgree(x, y, z, m); }
    if y & m == z & m { LastTwoAgree(x, y, z, m); }
  }

  lemma FirstTwoAgree(x: Word, y: Word, z: Word, m: Word)
    requires x & m == y & m
    ensures Maj(x, y, z) & m == x & m
  {
  }

  lemma OuterTwoAgree(x: Word, y: Word, z: Word, m: Word)
    requires x & m == z & m
    ensures Maj(x, y, z) & m == x & m
  {
  }

  lemma LastTwoAgree(x: Word, y: Word, z: Word, m: Word)
    requires y & m == z & m
    ensures Maj(x, y, z) & m == y & m
  {
  }

  // ------------------------------------------------ the example "abc" of FIPS 180-4

  const ABC: seq<Byte> := [0x61, 0x62, 0x63]
  function Block(): (b: seq<Byte>)
    ensures |b| == 64
  {
    ABC + [0x80] + Zeros(59) + [24]
  }

  lemma AbcPadded()
    ensures Pad(ABC) == Block()
  {
    hide BitsByte;
    forall i: nat | i < 8 ensures BitsByte(24, i) == if i == 7 then 24 else 0 { SmallLength(i); }
    assert Zeros(52) + LengthBytes(3) == Zeros(59) + [24];
    assert Pad(ABC) == ABC + [0x80] + (Zeros(52) + LengthBytes(3));
    assert Block() == ABC + [0x80] + (Zeros(59) + [24]);
  }

  lemma PowerAbove(i: nat)
    requires i > 0
    ensures Pow256(i) > 24
  {
  }

  lemma SmallLength(i: nat)
    requires i < 8
    ensures BitsByte(24, i) == if i == 7 then 24 else 0
  {
    hide Pow256, BitsByte;
    if i < 7 {
      PowerAbove(7 - i);
      ByteValue(24, i, 0);
    } else {
      NoPower();
      ByteValue(24, 7, 24);
    }
  }

  lemma ByteValue(bits: nat, i: nat, v: nat)
    requires i < 8 && bits < 256 && v == if bits < Pow256(7 - i) then 0 else v
    requires bits < Pow256(7 - i) || (Pow256(7 - i) == 1 && v == bits)
    ensures v < 256 && BitsByte(bits, i) == v as Byte
  {
    hide Pow256;
    Below(bits, Pow256(7 - i));
  }

  lemma Below(a: nat, n: nat)
    requires n > 0
    ensures a < n ==> a / n == 0
    ensures n == 1 ==> a / n == a
  {
  }

  lemma NoPower()
    ensures Pow256(0) == 1
  {
  }

  /** The block's schedule. */
  function W(t: nat): Word {
    match t / 16
    case 0 => (match t
      case 0 => 0x61626380 case 1 => 0x00000000 case 2 => 0x00000000 case 3 => 0x00000000
      case 4 => 0x00000000 case 5 => 0x00000000 case 6 => 0x00000000 case 7 => 0x00000000
      case 8 => 0x00000000 case 9 => 0x00000000 case 10 => 0x00000000 case 11 => 0x00000000
      case 12 => 0x00000000 case 13 => 0x00000000 case 14 => 0x00000000 case _ => 0x00000018)
    case 1 => (match t
      case 16 => 0x61626380 case 17 => 0x000f0000 case 18 => 0x7da86405 case 19 => 0x600003c6
      case 20 => 0x3e9d7b78 case 21 => 0x0183fc00 case 22 => 0x12dcbfdb case 23 => 0xe2e2c38e
      case 24 => 0xc8215c1a case 25 => 0xb73679a2 case 26 => 0xe5bc3909 case 27 => 0x32663c5b
      case 28 => 0x9d209d67 case 29 => 0xec8726cb case 30 => 0x702138a4 case _ => 0xd3b7973b)
    case 2 => (match t
      case 32 => 0x93f5997f case 33 => 0x3b68ba73 case 34 => 0xaff4ffc1 case 35 => 0xf10a5c62
      case 36 => 0x0a8b3996 case 37 => 0x72af830a case 38 => 0x9409e33e case 39 => 0x24641522
      case 40 => 0x9f47bf94 case 41 => 0xf0a64f5a case 42 => 0x3e246a79 case 43 => 0x27333ba3
      case 44 => 0x0c4763f2 case 45 => 0x840abf27 case 46 => 0x7a290d5d case _ => 0x065c43da)
    case _ => (match t
      case 48 => 0xfb3e89cb case 49 => 0xcc7617db case 50 => 0xb9e66c34 case 51 => 0xa9993667
      case 52 => 0x84badedd case 53 => 0xc21462bc case 54 => 0x1487472c case 55 => 0xb20f7a99
      case 56 => 0xef57b9cd case 57 => 0xebe6b238 case 58 => 0x9fe3095e case 59 => 0x78bc8d4b
      case 60 => 0xa43fcf15 case 61 => 0x668b2ff8 case 62 => 0xeeaba2cc case _ => 0x12b1edeb)
  }

  predicate WordStep(t: nat)
    requires 16 <= t
  {
    NextWord(W(t - 2), W(t - 7), W(t - 15), W(t - 16)) == W(t)
  }

  lemma FirstWord(t: nat, a: Byte, b: Byte, c: Byte, d: Byte)
    requires t < 16 && Block()[4 * t] == a && Block()[4 * t + 1] == b && Block()[4 * t + 2] == c && Block()[4 * t + 3] == d
    requires ((a as Word) << 24) | ((b as Word) << 16) | ((c as Word) << 8) | (d as Word) == W(t)
    ensures BlockWord(Block(), t) == W(t)
  {
    hide Block, W;
  }

  lemma FirstWords(t: nat)
    requires t < 16
    ensures BlockWord(Block(), t) == W(t)
  {
    hide BlockWord;
    if t == 0 {
      FirstWord(0, 0x61, 0x62, 0x63, 0x80);
    } else if t == 15 {
      FirstWord(15, 0, 0, 0, 24);
    } else {
      assert W(t) == 0;
      FirstWord(t, 0, 0, 0, 0);
    }
  }

  lemma NextIs(a: Word, b: Word, c: Word, d: Word, high: Word, low: Word, w: Word)
    requires Sigma1(a) == high && Sigma0(c) == low && Add(Add(Add(high, b), low), d) == w
    ensures NextWord(a, b, c, d) == w
  {
    hide Sigma0, Sigma1, Add;
  }

  lemma Words0()
    ensures W(0) == 0x61626380 && W(1) == 0x00000000 && W(2) == 0x00000000 && W(3) == 0x00000000
      && W(4) == 0x00000000 && W(5) == 0x00000000 && W(6) == 0x00000000 && W(7) == 0x00000000
      && W(8) == 0x00000000 && W(9) == 0x00000000 && W(10) == 0x00000000 && W(11) == 0x00000000
      && W(12) == 0x00000000 && W(13) == 0x00000000 && W(14) == 0x00000000 && W(15) == 0x00000018
  {
  }

  lemma Words16()
    ensures W(16) == 0x61626380 && W(17) == 0x000f0000 && W(18) == 0x7da86405 && W(19) == 0x600003c6
      && W(20) == 0x3e9d7b78 && W(21) == 0x0183fc00 && W(22) == 0x12dcbfdb && W(23) == 0xe2e2c38e
      && W(24) == 0xc8215c1a && W(25) == 0xb73679a2 && W(26) == 0xe5bc3909 && W(27) == 0x32663c5b
      && W(28) == 0x9d209d67 && W(29) == 0xec8726cb && W(30) == 0x702138a4 && W(31) == 0xd3b7973b
  {
  }

  lemma Words32()
    ensures W(32) == 0x93f5997f && W(33) == 0x3b68ba73 && W(34) == 0xaff4ffc1 && W(35) == 0xf10a5c62
      && W(36) == 0x0a8b3996 && W(37) == 0x72af830a && W(38) == 0x9409e33e && W(39) == 0x24641522
      && W(40) == 0x9f47bf94 && W(41) == 0xf0a64f5a && W(42) == 0x3e246a79 && W(43) == 0x27333ba3
      && W(44) == 0x0c4763f2 && W(45) == 0x840abf27 && W(46) == 0x7a290d5d && W(47) == 0x065c43da
  {
  }

  lemma Words48()
    ensures W(48) == 0xfb3e89cb && W(49) == 0xcc7617db && W(50) == 0xb9e66c34 && W(51) == 0xa9993667
      && W(52) == 0x84badedd && W(53) == 0xc21462bc && W(54) == 0x1487472c && W(55) == 0xb20f7a99
      && W(56) == 0xef57b9cd && W(57) == 0xebe6b238 && W(58) == 0x9fe3095e && W(59) == 0x78bc8d4b
      && W(60) == 0xa43fcf15 && W(61) == 0x668b2ff8 && W(62) == 0xeeaba2cc && W(63) == 0x12b1edeb
  {
  }

  lemma WordSteps16()
    ensures WordStep(16) && WordStep(17) && WordStep(18) && WordStep(19) && WordStep(20) && WordStep(21)
      && WordStep(22) && WordStep(23)
  {
    hide W, NextWord;
    Words0();
    Words16();
    NextIs(0x00000000, 0x00000000, 0x00000000, 0x61626380, 0x00000000, 0x00000000, 0x61626380);
    NextIs(0x00000018, 0x00000000, 0x00000000, 0x00000000, 0x000f0000, 0x00000000, 0x000f0000);
    NextIs(0x61626380, 0x00000000, 0x00000000, 0x00000000, 0x7da86405, 0x00000000, 0x7da86405);
    NextIs(0x000f0000, 0x00000000, 0x00000000, 0x00000000, 0x600003c6, 0x00000000, 0x600003c6);
    NextIs(0x7da86405, 0x00000000, 0x00000000, 0x00000000, 0x3e9d7b78, 0x00000000, 0x3e9d7b78);
    NextIs(0x600003c6, 0x00000000, 0x00000000, 0x00000000, 0x0183fc00, 0x00000000, 0x0183fc00);
    NextIs(0x3e9d7b78, 0x00000018, 0x00000000, 0x00000000, 0x12dcbfc3, 0x00000000, 0x12dcbfdb);
    NextIs(0x0183fc00, 0x61626380, 0x00000000, 0x00000000, 0x8180600e, 0x00000000, 0xe2e2c38e);
  }

  lemma WordSteps24()
    ensures WordStep(24) && WordStep(25) && WordStep(26) && WordStep(27) && WordStep(28) && WordStep(29)
      && WordStep(30) && WordStep(31)
  {
    hide W, NextWord;
    Words0();
    Words16();
    NextIs(0x12dcbfdb, 0x000f0000, 0x00000000, 0x00000000, 0xc8125c1a, 0x00000000, 0xc8215c1a);
    NextIs(0xe2e2c38e, 0x7da86405, 0x00000000, 0x00000000, 0x398e159d, 0x00000000, 0xb73679a2);
    NextIs(0xc8215c1a, 0x600003c6, 0x00000000, 0x00000000, 0x85bc3543, 0x00000000, 0xe5bc3909);
    NextIs(0xb73679a2, 0x3e9d7b78, 0x00000000, 0x00000000, 0xf3c8c0e3, 0x00000000, 0x32663c5b);
    NextIs(0xe5bc3909, 0x0183fc00, 0x00000000, 0x00000000, 0x9b9ca167, 0x00000000, 0x9d209d67);
    NextIs(0x32663c5b, 0x12dcbfdb, 0x00000000, 0x00000000, 0xd9aa66f0, 0x00000000, 0xec8726cb);
    NextIs(0x9d209d67, 0xe2e2c38e, 0x00000018, 0x00000000, 0x5d387513, 0x30060003, 0x702138a4);
    NextIs(0xec8726cb, 0xc8215c1a, 0x61626380, 0x00000018, 0x7787aa1a, 0x940e90ef, 0xd3b7973b);
  }

  lemma WordSteps32()
    ensures WordStep(32) && WordStep(33) && WordStep(34) && WordStep(35) && WordStep(36) && WordStep(37)
      && WordStep(38) && WordStep(39)
  {
    hide W, NextWord;
    Words16();
    Words32();
    NextIs(0x702138a4, 0xb73679a2, 0x000f0000, 0x61626380, 0xbb5abe5a, 0xc001fe03, 0x93f5997f);
    NextIs(0xd3b7973b, 0xe5bc3909, 0x7da86405, 0x000f0000, 0x394e7e48, 0x1c4f0322, 0x3b68ba73);
    NextIs(0x93f5997f, 0x32663c5b, 0x600003c6, 0x7da86405, 0x7fb4c6e2, 0x8031987f, 0xaff4ffc1);
    NextIs(0x3b68ba73, 0x9d209d67, 0x3e9d7b78, 0x600003c6, 0x4a7920f7, 0xa9709a3e, 0xf10a5c62);
    NextIs(0xaff4ffc1, 0xec8726cb, 0x0183fc00, 0x3e9d7b78, 0xe0331f3b, 0xff337818, 0x0a8b3996);
    NextIs(0xf10a5c62, 0x702138a4, 0x12dcbfdb, 0x0183fc00, 0x65816433, 0x9b88ea33, 0x72af830a);
    NextIs(0x0a8b3996, 0xd3b7973b, 0xe2e2c38e, 0x12dcbfdb, 0xfbfb66da, 0xb17a254e, 0x9409e33e);
    NextIs(0x72af830a, 0x93f5997f, 0xc8215c1a, 0xe2e2c38e, 0x31f8dce2, 0x7b92db33, 0x24641522);
  }

  lemma WordSteps40()
    ensures WordStep(40) && WordStep(41) && WordStep(42) && WordStep(43) && WordStep(44) && WordStep(45)
      && WordStep(46) && WordStep(47)
  {
    hide W, NextWord;
    Words16();
    Words32();
    NextIs(0x9409e33e, 0x3b68ba73, 0xb73679a2, 0xc8215c1a, 0xcddd9afd, 0xcde00e0a, 0x9f47bf94);
    NextIs(0x24641522, 0xaff4ffc1, 0xe5bc3909, 0xb73679a2, 0x883c4fbb, 0x013e863c, 0xf0a64f5a);
    NextIs(0x9f47bf94, 0xf10a5c62, 0x32663c5b, 0xe5bc3909, 0x281f0da4, 0x3f3ec76a, 0x3e246a79);
    NextIs(0xf0a64f5a, 0x0a8b3996, 0x9d209d67, 0x32663c5b, 0xee7a0fd4, 0xfbc7b5de, 0x27333ba3);
    NextIs(0x3e246a79, 0x72af830a, 0xec8726cb, 0x9d209d67, 0xb87c31cc, 0x43fb11b5, 0x0c4763f2);
    NextIs(0x27333ba3, 0x9409e33e, 0x702138a4, 0xec8726cb, 0xfaac3bb1, 0x08cd796d, 0x840abf27);
    NextIs(0x0c4763f2, 0x24641522, 0xd3b7973b, 0x702138a4, 0x5d845673, 0x881f6924, 0x7a290d5d);
    NextIs(0x840abf27, 0x9f47bf94, 0x93f5997f, 0xd3b7973b, 0x0856302b, 0x8b06bce0, 0x065c43da);
  }

  lemma WordSteps48()
    ensures WordStep(48) && WordStep(49) && WordStep(50) && WordStep(51) && WordStep(52) && WordStep(53)
      && WordStep(54) && WordStep(55)
  {
    hide W, NextWord;
    Words32();
    Words48();
    NextIs(0x7a290d5d, 0xf0a64f5a, 0x3b68ba73, 0x93f5997f, 0xa71b9812, 0xcf8708e0, 0xfb3e89cb);
    NextIs(0x065c43da, 0x3e246a79, 0xaff4ffc1, 0x3b68ba73, 0xa997d4f5, 0xa9511dfa, 0xcc7617db);
    NextIs(0xfb3e89cb, 0x27333ba3, 0xf10a5c62, 0xaff4ffc1, 0x95e24d5a, 0x4cdbe376, 0xb9e66c34);
    NextIs(0xcc7617db, 0x0c4763f2, 0x0a8b3996, 0xf10a5c62, 0xc9258230, 0xe321f3e3, 0xa9993667);
    NextIs(0xb9e66c34, 0x840abf27, 0x72af830a, 0x0a8b3996, 0xfbb2b254, 0xfa7233cc, 0x84badedd);
    NextIs(0xa9993667, 0x7a290d5d, 0x9409e33e, 0x72af830a, 0xbdd547b2, 0x17668aa3, 0xc21462bc);
    NextIs(0x84badedd, 0x065c43da, 0x24641522, 0x9409e33e, 0x34945c7d, 0x458cc397, 0x1487472c);
    NextIs(0xc21462bc, 0xfb3e89cb, 0x9f47bf94, 0x24641522, 0xbd397c50, 0xd5335f5c, 0xb20f7a99);
  }

  lemma WordSteps56()
    ensures WordStep(56) && WordStep(57) && WordStep(58) && WordStep(59) && WordStep(60) && WordStep(61)
      && WordStep(62) && WordStep(63)
  {
    hide W, NextWord;
    Words32();
    Words48();
    NextIs(0x1487472c, 0xcc7617db, 0xf0a64f5a, 0x9f47bf94, 0x4b76a902, 0x3823395c, 0xef57b9cd);
    NextIs(0xb20f7a99, 0xb9e66c34, 0x3e246a79, 0xf0a64f5a, 0x52336c98, 0xef268a12, 0xebe6b238);
    NextIs(0xef57b9cd, 0xa9993667, 0x27333ba3, 0x3e246a79, 0x2be49faf, 0x8c40c8cf, 0x9fe3095e);
    NextIs(0xebe6b238, 0x84badedd, 0x0c4763f2, 0x27333ba3, 0x8f619123, 0x3d6ce1a8, 0x78bc8d4b);
    NextIs(0x9fe3095e, 0xc21462bc, 0x840abf27, 0x0c4763f2, 0xe5a364cf, 0xf040a398, 0xa43fcf15);
    NextIs(0x78bc8d4b, 0x1487472c, 0x7a290d5d, 0x840abf27, 0xd712fc6a, 0xf6e62d3b, 0x668b2ff8);
    NextIs(0xa43fcf15, 0xb20f7a99, 0x065c43da, 0x7a290d5d, 0x1e41696b, 0xa431b16b, 0xeeaba2cc);
    NextIs(0x668b2ff8, 0xef57b9cd, 0xfb3e89cb, 0x065c43da, 0xf21a9d5f, 0x2ae352e5, 0x12b1edeb);
  }

  lemma WordSteps(t: nat)
    requires 16 <= t < 64
    ensures WordStep(t)
  {
    hide WordStep, W, NextWord;
    if 16 <= t < 24 { WordSteps16(); }
    if 24 <= t < 32 { WordSteps24(); }
    if 32 <= t < 40 { WordSteps32(); }
    if 40 <= t < 48 { WordSteps40(); }
    if 48 <= t < 56 { WordSteps48(); }
    if 56 <= t < 64 { WordSteps56(); }
  }

  lemma {:induction false} ScheduleIs(t: nat)
    requires t < 64
    ensures Schedule(Block(), t) == W(t)
    decreases t
  {
    hide Schedule, W, Block, BlockWord, NextWord;
    ScheduleAt(Block(), t);
    if t < 16 {
      FirstWords(t);
    } else {
      ScheduleIs(t - 2);
      ScheduleIs(t - 7);
      ScheduleIs(t - 15);
      ScheduleIs(t - 16);
      WordSteps(t);
    }
  }

  /** The registers after n rounds. */
  function R(n: nat): Regs {
    match n / 16
    case 0 => (match n
      case 0 => Regs(0x6a09e667, 0xbb67ae85, 0x3c6ef372, 0xa54ff53a, 0x510e527f, 0x9b05688c, 0x1f83d9ab, 0x5be0cd19)
      case 1 => Regs(0x5d6aebcd, 0x6a09e667, 0xbb67ae85, 0x3c6ef372, 0xfa2a4622, 0x510e527f, 0x9b05688c, 0x1f83d9ab)
      case 2 => Regs(0x5a6ad9ad, 0x5d6aebcd, 0x6a09e667, 0xbb67ae85, 0x78ce7989, 0xfa2a4622, 0x510e527f, 0x9b05688c)
      case 3 => Regs(0xc8c347a7, 0x5a6ad9ad, 0x5d6aebcd, 0x6a09e667, 0xf92939eb, 0x78ce7989, 0xfa2a4622, 0x510e527f)
      case 4 => Regs(0xd550f666, 0xc8c347a7, 0x5a6ad9ad, 0x5d6aebcd, 0x24e00850, 0xf92939eb, 0x78ce7989, 0xfa2a4622)
      case 5 => Regs(0x04409a6a, 0xd550f666, 0xc8c347a7, 0x5a6ad9ad, 0x43ada245, 0x24e00850, 0xf92939eb, 0x78ce7989)
      case 6 => Regs(0x2b4209f5, 0x04409a6a, 0xd550f666, 0xc8c347a7, 0x714260ad, 0x43ada245, 0x24e00850, 0xf92939eb)
      case 7 => Regs(0xe5030380, 0x2b4209f5, 0x04409a6a, 0xd550f666, 0x9b27a401, 0x714260ad, 0x43ada245, 0x24e00850)
      case 8 => Regs(0x85a07b5f, 0xe5030380, 0x2b4209f5, 0x04409a6a, 0x0c657a79, 0x9b27a401, 0x714260ad, 0x43ada245)
      case 9 => Regs(0x8e04ecb9, 0x85a07b5f, 0xe5030380, 0x2b4209f5, 0x32ca2d8c, 0x0c657a79, 0x9b27a401, 0x714260ad)
      case 10 => Regs(0x8c87346b, 0x8e04ecb9, 0x85a07b5f, 0xe5030380, 0x1cc92596, 0x32ca2d8c, 0x0c657a79, 0x9b27a401)
      case 11 => Regs(0x4798a3f4, 0x8c87346b, 0x8e04ecb9, 0x85a07b5f, 0x436b23e8, 0x1cc92596, 0x32ca2d8c, 0x0c657a79)
      case 12 => Regs(0xf71fc5a9, 0x4798a3f4, 0x8c87346b, 0x8e04ecb9, 0x816fd6e9, 0x436b23e8, 0x1cc92596, 0x32ca2d8c)
      case 13 => Regs(0x87912990, 0xf71fc5a9, 0x4798a3f4, 0x8c87346b, 0x1e578218, 0x816fd6e9, 0x436b23e8, 0x1cc92596)
      case 14 => Regs(0xd932eb16, 0x87912990, 0xf71fc5a9, 0x4798a3f4, 0x745a48de, 0x1e578218, 0x816fd6e9, 0x436b23e8)
      case _ => Regs(0xc0645fde, 0xd932eb16, 0x87912990, 0xf71fc5a9, 0x0b92f20c, 0x745a48de, 0x1e578218, 0x816fd6e9))
    case 1 => (match n
      case 16 => Regs(0xb0fa238e, 0xc0645fde, 0xd932eb16, 0x87912990, 0x07590dcd, 0x0b92f20c, 0x745a48de, 0x1e578218)
      case 17 => Regs(0x21da9a9b, 0xb0fa238e, 0xc0645fde, 0xd932eb16, 0x8034229c, 0x07590dcd, 0x0b92f20c, 0x745a48de)
      case 18 => Regs(0xc2fbd9d1, 0x21da9a9b, 0xb0fa238e, 0xc0645fde, 0x846ee454, 0x8034229c, 0x07590dcd, 0x0b92f20c)
      case 19 => Regs(0xfe777bbf, 0xc2fbd9d1, 0x21da9a9b, 0xb0fa238e, 0xcc899961, 0x846ee454, 0x8034229c, 0x07590dcd)
      case 20 => Regs(0xe1f20c33, 0xfe777bbf, 0xc2fbd9d1, 0x21da9a9b, 0xb0638179, 0xcc899961, 0x846ee454, 0x8034229c)
      case 21 => Regs(0x9dc68b63, 0xe1f20c33, 0xfe777bbf, 0xc2fbd9d1, 0x8ada8930, 0xb0638179, 0xcc899961, 0x846ee454)
      case 22 => Regs(0xc2606d6d, 0x9dc68b63, 0xe1f20c33, 0xfe777bbf, 0xe1257970, 0x8ada8930, 0xb0638179, 0xcc899961)
      case 23 => Regs(0xa7a3623f, 0xc2606d6d, 0x9dc68b63, 0xe1f20c33, 0x49f5114a, 0xe1257970, 0x8ada8930, 0xb0638179)
      case 24 => Regs(0xc5d53d8d, 0xa7a3623f, 0xc2606d6d, 0x9dc68b63, 0xaa47c347, 0x49f5114a, 0xe1257970, 0x8ada8930)
      case 25 => Regs(0x1c2c2838, 0xc5d53d8d, 0xa7a3623f, 0xc2606d6d, 0x2823ef91, 0xaa47c347, 0x49f5114a, 0xe1257970)
      case 26 => Regs(0xcde8037d, 0x1c2c2838, 0xc5d53d8d, 0xa7a3623f, 0x14383d8e, 0x2823ef91, 0xaa47c347, 0x49f5114a)
      case 27 => Regs(0xb62ec4bc, 0xcde8037d, 0x1c2c2838, 0xc5d53d8d, 0xc74c6516, 0x14383d8e, 0x2823ef91, 0xaa47c347)
      case 28 => Regs(0x77d37528, 0xb62ec4bc, 0xcde8037d, 0x1c2c2838, 0xedffbff8, 0xc74c6516, 0x14383d8e, 0x2823ef91)
      case 29 => Regs(0x363482c9, 0x77d37528, 0xb62ec4bc, 0xcde8037d, 0x6112a3b7, 0xedffbff8, 0xc74c6516, 0x14383d8e)
      case 30 => Regs(0xa0060b30, 0x363482c9, 0x77d37528, 0xb62ec4bc, 0xade79437, 0x6112a3b7, 0xedffbff8, 0xc74c6516)
      case _ => Regs(0xea992a22, 0xa0060b30, 0x363482c9, 0x77d37528, 0x0109ab3a, 0xade79437, 0x6112a3b7, 0xedffbff8))
    case 2 => (match n
      case 32 => Regs(0x73b33bf5, 0xea992a22, 0xa0060b30, 0x363482c9, 0xba591112, 0x0109ab3a, 0xade79437, 0x6112a3b7)
      case 33 => Regs(0x98e12507, 0x73b33bf5, 0xea992a22, 0xa0060b30, 0x9cd9f5f6, 0xba591112, 0x0109ab3a, 0xade79437)
      case 34 => Regs(0xfe604df5, 0x98e12507, 0x73b33bf5, 0xea992a22, 0x59249dd3, 0x9cd9f5f6, 0xba591112, 0x0109ab3a)
      case 35 => Regs(0xa9a7738c, 0xfe604df5, 0x98e12507, 0x73b33bf5, 0x085f3833, 0x59249dd3, 0x9cd9f5f6, 0xba591112)
      case 36 => Regs(0x65a0cfe4, 0xa9a7738c, 0xfe604df5, 0x98e12507, 0xf4b002d6, 0x085f3833, 0x59249dd3, 0x9cd9f5f6)
      case 37 => Regs(0x41a65cb1, 0x65a0cfe4, 0xa9a7738c, 0xfe604df5, 0x0772a26b, 0xf4b002d6, 0x085f3833, 0x59249dd3)
      case 38 => Regs(0x34df1604, 0x41a65cb1, 0x65a0cfe4, 0xa9a7738c, 0xa507a53d, 0x0772a26b, 0xf4b002d6, 0x085f3833)
      case 39 => Regs(0x6dc57a8a, 0x34df1604, 0x41a65cb1, 0x65a0cfe4, 0xf0781bc8, 0xa507a53d, 0x0772a26b, 0xf4b002d6)
      case 40 => Regs(0x79ea687a, 0x6dc57a8a, 0x34df1604, 0x41a65cb1, 0x1efbc0a0, 0xf0781bc8, 0xa507a53d, 0x0772a26b)
      case 41 => Regs(0xd6670766, 0x79ea687a, 0x6dc57a8a, 0x34df1604, 0x26352d63, 0x1efbc0a0, 0xf0781bc8, 0xa507a53d)
      case 42 => Regs(0xdf46652f, 0xd6670766, 0x79ea687a, 0x6dc57a8a, 0x838b2711, 0x26352d63, 0x1efbc0a0, 0xf0781bc8)
      case 43 => Regs(0x17aa0dfe, 0xdf46652f, 0xd6670766, 0x79ea687a, 0xdecd4715, 0x838b2711, 0x26352d63, 0x1efbc0a0)
      case 44 => Regs(0x9d4baf93, 0x17aa0dfe, 0xdf46652f, 0xd6670766, 0xfda24c2e, 0xdecd4715, 0x838b2711, 0x26352d63)
      case 45 => Regs(0x26628815, 0x9d4baf93, 0x17aa0dfe, 0xdf46652f, 0xa80f11f0, 0xfda24c2e, 0xdecd4715, 0x838b2711)
      case 46 => Regs(0x72ab4b91, 0x26628815, 0x9d4baf93, 0x17aa0dfe, 0xb7755da1, 0xa80f11f0, 0xfda24c2e, 0xdecd4715)
      case _ => Regs(0xa14c14b0, 0x72ab4b91, 0x26628815, 0x9d4baf93, 0xd57b94a9, 0xb7755da1, 0xa80f11f0, 0xfda24c2e))
    case 3 => (match n
      case 48 => Regs(0x4172328d, 0xa14c14b0, 0x72ab4b91, 0x26628815, 0xfecf0bc6, 0xd57b94a9, 0xb7755da1, 0xa80f11f0)
      case 49 => Regs(0x05757ceb, 0x4172328d, 0xa14c14b0, 0x72ab4b91, 0xbd714038, 0xfecf0bc6, 0xd57b94a9, 0xb7755da1)
      case 50 => Regs(0xf11bfaa8, 0x05757ceb, 0x4172328d, 0xa14c14b0, 0x6e5c390c, 0xbd714038, 0xfecf0bc6, 0xd57b94a9)
      case 51 => Regs(0x7a0508a1, 0xf11bfaa8, 0x05757ceb, 0x4172328d, 0x52f1ccf7, 0x6e5c390c, 0xbd714038, 0xfecf0bc6)
      case 52 => Regs(0x886e7a22, 0x7a0508a1, 0xf11bfaa8, 0x05757ceb, 0x49231c1e, 0x52f1ccf7, 0x6e5c390c, 0xbd714038)
      case 53 => Regs(0x101fd28f, 0x886e7a22, 0x7a0508a1, 0xf11bfaa8, 0x529e7d00, 0x49231c1e, 0x52f1ccf7, 0x6e5c390c)
      case 54 => Regs(0xf5702fdb, 0x101fd28f, 0x886e7a22, 0x7a0508a1, 0x9f4787c3, 0x529e7d00, 0x49231c1e, 0x52f1ccf7)
      case 55 => Regs(0x3ec45cdb, 0xf5702fdb, 0x101fd28f, 0x886e7a22, 0xe50e1b4f, 0x9f4787c3, 0x529e7d00, 0x49231c1e)
      case 56 => Regs(0x38cc9913, 0x3ec45cdb, 0xf5702fdb, 0x101fd28f, 0x54cb266b, 0xe50e1b4f, 0x9f4787c3, 0x529e7d00)
      case 57 => Regs(0xfcd1887b, 0x38cc9913, 0x3ec45cdb, 0xf5702fdb, 0x9b5e906c, 0x54cb266b, 0xe50e1b4f, 0x9f4787c3)
      case 58 => Regs(0xc062d46f, 0xfcd1887b, 0x38cc9913, 0x3ec45cdb, 0x7e44008e, 0x9b5e906c, 0x54cb266b, 0xe50e1b4f)
      case 59 => Regs(0xffb70472, 0xc062d46f, 0xfcd1887b, 0x38cc9913, 0x6d83bfc6, 0x7e44008e, 0x9b5e906c, 0x54cb266b)
      case 60 => Regs(0xb6ae8fff, 0xffb70472, 0xc062d46f, 0xfcd1887b, 0xb21bad3d, 0x6d83bfc6, 0x7e44008e, 0x9b5e906c)
      case 61 => Regs(0xb85e2ce9, 0xb6ae8fff, 0xffb70472, 0xc062d46f, 0x961f4894, 0xb21bad3d, 0x6d83bfc6, 0x7e44008e)
      case 62 => Regs(0x04d24d6c, 0xb85e2ce9, 0xb6ae8fff, 0xffb70472, 0x948d25b6, 0x961f4894, 0xb21bad3d, 0x6d83bfc6)
      case _ => Regs(0xd39a2165, 0x04d24d6c, 0xb85e2ce9, 0xb6ae8fff, 0xfb121210, 0x948d25b6, 0x961f4894, 0xb21bad3d))
    case _ => Regs(0x506e3058, 0xd39a2165, 0x04d24d6c, 0xb85e2ce9, 0x5ef50f24, 0xfb121210, 0x948d25b6, 0x961f4894)
  }

  predicate RoundStep(n: nat) { Round(R(n), K(n), W(n)) == R(n + 1) }

  lemma RoundIs(a: Word, b: Word, c: Word, d: Word, e: Word, f: Word, g: Word, h: Word, k: Word, w: Word,
                t1: Word, t2: Word, top: Word, mid: Word)
    requires Add(Add(Add(Add(h, Sum1(e)), Ch(e, f, g)), k), w) == t1 && Add(Sum0(a), Maj(a, b, c)) == t2
    requires Add(t1, t2) == top && Add(d, t1) == mid
    ensures Round(Regs(a, b, c, d, e, f, g, h), k, w) == Regs(top, a, b, c, mid, e, f, g)
  {
    hide Sum0, Sum1, Ch, Maj, Add;
  }

  lemma Regs0()
    ensures R(0) == Regs(0x6a09e667, 0xbb67ae85, 0x3c6ef372, 0xa54ff53a, 0x510e527f, 0x9b05688c, 0x1f83d9ab, 0x5be0cd19)
      && R(1) == Regs(0x5d6aebcd, 0x6a09e667, 0xbb67ae85, 0x3c6ef372, 0xfa2a4622, 0x510e527f, 0x9b05688c, 0x1f83d9ab)
      && R(2) == Regs(0x5a6ad9ad, 0x5d6aebcd, 0x6a09e667, 0xbb67ae85, 0x78ce7989, 0xfa2a4622, 0x510e527f, 0x9b05688c)
      && R(3) == Regs(0xc8c347a7, 0x5a6ad9ad, 0x5d6aebcd, 0x6a09e667, 0xf92939eb, 0x78ce7989, 0xfa2a4622, 0x510e527f)
  {
  }

  lemma Regs4()
    ensures R(4) == Regs(0xd550f666, 0xc8c347a7, 0x5a6ad9ad, 0x5d6aebcd, 0x24e00850, 0xf92939eb, 0x78ce7989, 0xfa2a4622)
      && R(5) == Regs(0x04409a6a, 0xd550f666, 0xc8c347a7, 0x5a6ad9ad, 0x43ada245, 0x24e00850, 0xf92939eb, 0x78ce7989)
      && R(6) == Regs(0x2b4209f5, 0x04409a6a, 0xd550f666, 0xc8c347a7, 0x714260ad, 0x43ada245, 0x24e00850, 0xf92939eb)
      && R(7) == Regs(0xe5030380, 0x2b4209f5, 0x04409a6a, 0xd550f666, 0x9b27a401, 0x714260ad, 0x43ada245, 0x24e00850)
      && R(8) == Regs(0x85a07b5f, 0xe5030380, 0x2b4209f5, 0x04409a6a, 0x0c657a79, 0x9b27a401, 0x714260ad, 0x43ada245)
  {
  }

  lemma Constants0()
    ensures K(0) == 0x428a2f98 && K(1) == 0x71374491 && K(2) == 0xb5c0fbcf && K(3) == 0xe9b5dba5
      && K(4) == 0x3956c25b && K(5) == 0x59f111f1 && K(6) == 0x923f82a4 && K(7) == 0xab1c5ed5
  {
  }

  lemma RoundSteps0()
    ensures RoundStep(0) && RoundStep(1) && RoundStep(2) && RoundStep(3) && RoundStep(4) && RoundStep(5)
      && RoundStep(6) && RoundStep(7)
  {
    hide R, W, K, Round;
    Regs0();
    Regs4();
    Constants0();
    Words0();
    RoundIs(0x6a09e667, 0xbb67ae85, 0x3c6ef372, 0xa54ff53a, 0x510e527f, 0x9b05688c, 0x1f83d9ab, 0x5be0cd19,
            0x428a2f98, 0x61626380, 0x54da50e8, 0x08909ae5, 0x5d6aebcd, 0xfa2a4622);
    RoundIs(0x5d6aebcd, 0x6a09e667, 0xbb67ae85, 0x3c6ef372, 0xfa2a4622, 0x510e527f, 0x9b05688c, 0x1f83d9ab,
            0x71374491, 0x00000000, 0x3c5f8617, 0x1e0b5396, 0x5a6ad9ad, 0x78ce7989);
    RoundIs(0x5a6ad9ad, 0x5d6aebcd, 0x6a09e667, 0xbb67ae85, 0x78ce7989, 0xfa2a4622, 0x510e527f, 0x9b05688c,
            0xb5c0fbcf, 0x00000000, 0x3dc18b66, 0x8b01bc41, 0xc8c347a7, 0xf92939eb);
    RoundIs(0xc8c347a7, 0x5a6ad9ad, 0x5d6aebcd, 0x6a09e667, 0xf92939eb, 0x78ce7989, 0xfa2a4622, 0x510e527f,
            0xe9b5dba5, 0x00000000, 0xbad621e9, 0x1a7ad47d, 0xd550f666, 0x24e00850);
    RoundIs(0xd550f666, 0xc8c347a7, 0x5a6ad9ad, 0x5d6aebcd, 0x24e00850, 0xf92939eb, 0x78ce7989, 0xfa2a4622,
            0x3956c25b, 0x00000000, 0xe642b678, 0x1dfde3f2, 0x04409a6a, 0x43ada245);
    RoundIs(0x04409a6a, 0xd550f666, 0xc8c347a7, 0x5a6ad9ad, 0x43ada245, 0x24e00850, 0xf92939eb, 0x78ce7989,
            0x59f111f1, 0x00000000, 0x16d78700, 0x146a82f5, 0x2b4209f5, 0x714260ad);
    RoundIs(0x2b4209f5, 0x04409a6a, 0xd550f666, 0xc8c347a7, 0x714260ad, 0x43ada245, 0x24e00850, 0xf92939eb,
            0x923f82a4, 0x00000000, 0xd2645c5a, 0x129ea726, 0xe5030380, 0x9b27a401);
    RoundIs(0xe5030380, 0x2b4209f5, 0x04409a6a, 0xd550f666, 0x9b27a401, 0x714260ad, 0x43ada245, 0x24e00850,
            0xab1c5ed5, 0x00000000, 0x37148413, 0x4e8bf74c, 0x85a07b5f, 0x0c657a79);
  }

  lemma Regs8()
    ensures R(8) == Regs(0x85a07b5f, 0xe5030380, 0x2b4209f5, 0x04409a6a, 0x0c657a79, 0x9b27a401, 0x714260ad, 0x43ada245)
      && R(9) == Regs(0x8e04ecb9, 0x85a07b5f, 0xe5030380, 0x2b4209f5, 0x32ca2d8c, 0x0c657a79, 0x9b27a401, 0x714260ad)
      && R(10) == Regs(0x8c87346b, 0x8e04ecb9, 0x85a07b5f, 0xe5030380, 0x1cc92596, 0x32ca2d8c, 0x0c657a79, 0x9b27a401)
      && R(11) == Regs(0x4798a3f4, 0x8c87346b, 0x8e04ecb9, 0x85a07b5f, 0x436b23e8, 0x1cc92596, 0x32ca2d8c, 0x0c657a79)
  {
  }

  lemma Regs12()
    ensures R(12) == Regs(0xf71fc5a9, 0x4798a3f4, 0x8c87346b, 0x8e04ecb9, 0x816fd6e9, 0x436b23e8, 0x1cc92596, 0x32ca2d8c)
      && R(13) == Regs(0x87912990, 0xf71fc5a9, 0x4798a3f4, 0x8c87346b, 0x1e578218, 0x816fd6e9, 0x436b23e8, 0x1cc92596)
      && R(14) == Regs(0xd932eb16, 0x87912990, 0xf71fc5a9, 0x4798a3f4, 0x745a48de, 0x1e578218, 0x816fd6e9, 0x436b23e8)
      && R(15) == Regs(0xc0645fde, 0xd932eb16, 0x87912990, 0xf71fc5a9, 0x0b92f20c, 0x745a48de, 0x1e578218, 0x816fd6e9)
      && R(16) == Regs(0xb0fa238e, 0xc0645fde, 0xd932eb16, 0x87912990, 0x07590dcd, 0x0b92f20c, 0x745a48de, 0x1e578218)
  {
  }

  lemma Constants8()
    ensures K(8) == 0xd807aa98 && K(9) == 0x12835b01 && K(10) == 0x243185be && K(11) == 0x550c7dc3
      && K(12) == 0x72be5d74 && K(13) == 0x80deb1fe && K(14) == 0x9bdc06a7 && K(15) == 0xc19bf174
  {
  }

  lemma RoundSteps8()
    ensures RoundStep(8) && RoundStep(9) && RoundStep(10) && RoundStep(11) && RoundStep(12) && RoundStep(13)
      && RoundStep(14) && RoundStep(15)
  {
    hide R, W, K, Round;
    Regs8();
    Regs12();
    Constants8();
    Words0();
    RoundIs(0x85a07b5f, 0xe5030380, 0x2b4209f5, 0x04409a6a, 0x0c657a79, 0x9b27a401, 0x714260ad, 0x43ada245,
            0xd807aa98, 0x00000000, 0x2e899322, 0x5f7b5997, 0x8e04ecb9, 0x32ca2d8c);
    RoundIs(0x8e04ecb9, 0x85a07b5f, 0xe5030380, 0x2b4209f5, 0x32ca2d8c, 0x0c657a79, 0x9b27a401, 0x714260ad,
            0x12835b01, 0x00000000, 0xf1871ba1, 0x9b0018ca, 0x8c87346b, 0x1cc92596);
    RoundIs(0x8c87346b, 0x8e04ecb9, 0x85a07b5f, 0xe5030380, 0x1cc92596, 0x32ca2d8c, 0x0c657a79, 0x9b27a401,
            0x243185be, 0x00000000, 0x5e682068, 0xe930838c, 0x4798a3f4, 0x436b23e8);
    RoundIs(0x4798a3f4, 0x8c87346b, 0x8e04ecb9, 0x85a07b5f, 0x436b23e8, 0x1cc92596, 0x32ca2d8c, 0x0c657a79,
            0x550c7dc3, 0x00000000, 0xfbcf5b8a, 0xfb506a1f, 0xf71fc5a9, 0x816fd6e9);
    RoundIs(0xf71fc5a9, 0x4798a3f4, 0x8c87346b, 0x8e04ecb9, 0x816fd6e9, 0x436b23e8, 0x1cc92596, 0x32ca2d8c,
            0x72be5d74, 0x00000000, 0x9052955f, 0xf73e9431, 0x87912990, 0x1e578218);
    RoundIs(0x87912990, 0xf71fc5a9, 0x4798a3f4, 0x8c87346b, 0x1e578218, 0x816fd6e9, 0x436b23e8, 0x1cc92596,
            0x80deb1fe, 0x00000000, 0xe7d31473, 0xf15fd6a3, 0xd932eb16, 0x745a48de);
    RoundIs(0xd932eb16, 0x87912990, 0xf71fc5a9, 0x4798a3f4, 0x745a48de, 0x1e578218, 0x816fd6e9, 0x436b23e8,
            0x9bdc06a7, 0x00000000, 0xc3fa4e18, 0xfc6a11c6, 0xc0645fde, 0x0b92f20c);
    RoundIs(0xc0645fde, 0xd932eb16, 0x87912990, 0xf71fc5a9, 0x0b92f20c, 0x745a48de, 0x1e578218, 0x816fd6e9,
            0xc19bf174, 0x00000018, 0x10394824, 0xa0c0db6a, 0xb0fa238e, 0x07590dcd);
  }

  lemma Regs16()
    ensures R(16) == Regs(0xb0fa238e, 0xc0645fde, 0xd932eb16, 0x87912990, 0x07590dcd, 0x0b92f20c, 0x745a48de, 0x1e578218)
      && R(17) == Regs(0x21da9a9b, 0xb0fa238e, 0xc0645fde, 0xd932eb16, 0x8034229c, 0x07590dcd, 0x0b92f20c, 0x745a48de)
      && R(18) == Regs(0xc2fbd9d1, 0x21da9a9b, 0xb0fa238e, 0xc0645fde, 0x846ee454, 0x8034229c, 0x07590dcd, 0x0b92f20c)
      && R(19) == Regs(0xfe777bbf, 0xc2fbd9d1, 0x21da9a9b, 0xb0fa238e, 0xcc899961, 0x846ee454, 0x8034229c, 0x07590dcd)
  {
  }

  lemma Regs20()
    ensures R(20) == Regs(0xe1f20c33, 0xfe777bbf, 0xc2fbd9d1, 0x21da9a9b, 0xb0638179, 0xcc899961, 0x846ee454, 0x8034229c)
      && R(21) == Regs(0x9dc68b63, 0xe1f20c33, 0xfe777bbf, 0xc2fbd9d1, 0x8ada8930, 0xb0638179, 0xcc899961, 0x846ee454)
      && R(22) == Regs(0xc2606d6d, 0x9dc68b63, 0xe1f20c33, 0xfe777bbf, 0xe1257970, 0x8ada8930, 0xb0638179, 0xcc899961)
      && R(23) == Regs(0xa7a3623f, 0xc2606d6d, 0x9dc68b63, 0xe1f20c33, 0x49f5114a, 0xe1257970, 0x8ada8930, 0xb0638179)
      && R(24) == Regs(0xc5d53d8d, 0xa7a3623f, 0xc2606d6d, 0x9dc68b63, 0xaa47c347, 0x49f5114a, 0xe1257970, 0x8ada8930)
  {
  }

  lemma Constants16()
    ensures K(16) == 0xe49b69c1 && K(17) == 0xefbe4786 && K(18) == 0x0fc19dc6 && K(19) == 0x240ca1cc
      && K(20) == 0x2de92c6f && K(21) == 0x4a7484aa && K(22) == 0x5cb0a9dc && K(23) == 0x76f988da
  {
  }

  lemma RoundSteps16()
    ensures RoundStep(16) && RoundStep(17) && RoundStep(18) && RoundStep(19) && RoundStep(20) && RoundStep(21)
      && RoundStep(22) && RoundStep(23)
  {
    hide R, W, K, Round;
    Regs16();
    Regs20();
    Constants16();
    Words16();
    RoundIs(0xb0fa238e, 0xc0645fde, 0xd932eb16, 0x87912990, 0x07590dcd, 0x0b92f20c, 0x745a48de, 0x1e578218,
            0xe49b69c1, 0x61626380, 0xf8a2f90c, 0x2937a18f, 0x21da9a9b, 0x8034229c);
    RoundIs(0x21da9a9b, 0xb0fa238e, 0xc0645fde, 0xd932eb16, 0x8034229c, 0x07590dcd, 0x0b92f20c, 0x745a48de,
            0xefbe4786, 0x000f0000, 0xab3bf93e, 0x17bfe093, 0xc2fbd9d1, 0x846ee454);
    RoundIs(0xc2fbd9d1, 0x21da9a9b, 0xb0fa238e, 0xc0645fde, 0x846ee454, 0x8034229c, 0x07590dcd, 0x0b92f20c,
            0x0fc19dc6, 0x7da86405, 0x0c253983, 0xf252423c, 0xfe777bbf, 0xcc899961);
    RoundIs(0xfe777bbf, 0xc2fbd9d1, 0x21da9a9b, 0xb0fa238e, 0xcc899961, 0x846ee454, 0x8034229c, 0x07590dcd,
            0x240ca1cc, 0x600003c6, 0xff695deb, 0xe288ae48, 0xe1f20c33, 0xb0638179);
    RoundIs(0xe1f20c33, 0xfe777bbf, 0xc2fbd9d1, 0x21da9a9b, 0xb0638179, 0xcc899961, 0x846ee454, 0x8034229c,
            0x2de92c6f, 0x3e9d7b78, 0x68ffee95, 0x34c69cce, 0x9dc68b63, 0x8ada8930);
    RoundIs(0x9dc68b63, 0xe1f20c33, 0xfe777bbf, 0xc2fbd9d1, 0x8ada8930, 0xb0638179, 0xcc899961, 0x846ee454,
            0x4a7484aa, 0x0183fc00, 0x1e299f9f, 0xa436cdce, 0xc2606d6d, 0xe1257970);
    RoundIs(0xc2606d6d, 0x9dc68b63, 0xe1f20c33, 0xfe777bbf, 0xe1257970, 0x8ada8930, 0xb0638179, 0xcc899961,
            0x5cb0a9dc, 0x12dcbfdb, 0x4b7d958b, 0x5c25ccb4, 0xa7a3623f, 0x49f5114a);
    RoundIs(0xa7a3623f, 0xc2606d6d, 0x9dc68b63, 0xe1f20c33, 0x49f5114a, 0xe1257970, 0x8ada8930, 0xb0638179,
            0x76f988da, 0xe2e2c38e, 0xc855b714, 0xfd7f8679, 0xc5d53d8d, 0xaa47c347);
  }

  lemma Regs24()
    ensures R(24) == Regs(0xc5d53d8d, 0xa7a3623f, 0xc2606d6d, 0x9dc68b63, 0xaa47c347, 0x49f5114a, 0xe1257970, 0x8ada8930)
      && R(25) == Regs(0x1c2c2838, 0xc5d53d8d, 0xa7a3623f, 0xc2606d6d, 0x2823ef91, 0xaa47c347, 0x49f5114a, 0xe1257970)
      && R(26) == Regs(0xcde8037d, 0x1c2c2838, 0xc5d53d8d, 0xa7a3623f, 0x14383d8e, 0x2823ef91, 0xaa47c347, 0x49f5114a)
      && R(27) == Regs(0xb62ec4bc, 0xcde8037d, 0x1c2c2838, 0xc5d53d8d, 0xc74c6516, 0x14383d8e, 0x2823ef91, 0xaa47c347)
  {
  }

  lemma Regs28()
    ensures R(28) == Regs(0x77d37528, 0xb62ec4bc, 0xcde8037d, 0x1c2c2838, 0xedffbff8, 0xc74c6516, 0x14383d8e, 0x2823ef91)
      && R(29) == Regs(0x363482c9, 0x77d37528, 0xb62ec4bc, 0xcde8037d, 0x6112a3b7, 0xedffbff8, 0xc74c6516, 0x14383d8e)
      && R(30) == Regs(0xa0060b30, 0x363482c9, 0x77d37528, 0xb62ec4bc, 0xade79437, 0x6112a3b7, 0xedffbff8, 0xc74c6516)
      && R(31) == Regs(0xea992a22, 0xa0060b30, 0x363482c9, 0x77d37528, 0x0109ab3a, 0xade79437, 0x6112a3b7, 0xedffbff8)
      && R(32) == Regs(0x73b33bf5, 0xea992a22, 0xa0060b30, 0x363482c9, 0xba591112, 0x0109ab3a, 0xade79437, 0x6112a3b7)
  {
  }

  lemma Constants24()
    ensures K(24) == 0x983e5152 && K(25) == 0xa831c66d && K(26) == 0xb00327c8 && K(27) == 0xbf597fc7
      && K(28) == 0xc6e00bf3 && K(29) == 0xd5a79147 && K(30) == 0x06ca6351 && K(31) == 0x14292967
  {
  }

  lemma RoundSteps24()
    ensures RoundStep(24) && RoundStep(25) && RoundStep(26) && RoundStep(27) && RoundStep(28) && RoundStep(29)
      && RoundStep(30) && RoundStep(31)
  {
    hide R, W, K, Round;
    Regs24();
    Regs28();
    Constants24();
    Words16();
    RoundIs(0xc5d53d8d, 0xa7a3623f, 0xc2606d6d, 0x9dc68b63, 0xaa47c347, 0x49f5114a, 0xe1257970, 0x8ada8930,
            0x983e5152, 0xc8215c1a, 0x8a5d642e, 0x91cec40a, 0x1c2c2838, 0x2823ef91);
    RoundIs(0x1c2c2838, 0xc5d53d8d, 0xa7a3623f, 0xc2606d6d, 0x2823ef91, 0xaa47c347, 0x49f5114a, 0xe1257970,
            0xa831c66d, 0xb73679a2, 0x51d7d021, 0x7c10335c, 0xcde8037d, 0x14383d8e);
    RoundIs(0xcde8037d, 0x1c2c2838, 0xc5d53d8d, 0xa7a3623f, 0x14383d8e, 0x2823ef91, 0xaa47c347, 0x49f5114a,
            0xb00327c8, 0xe5bc3909, 0x1fa902d7, 0x9685c1e5, 0xb62ec4bc, 0xc74c6516);
    RoundIs(0xb62ec4bc, 0xcde8037d, 0x1c2c2838, 0xc5d53d8d, 0xc74c6516, 0x14383d8e, 0x2823ef91, 0xaa47c347,
            0xbf597fc7, 0x32663c5b, 0x282a826b, 0x4fa8f2bd, 0x77d37528, 0xedffbff8);
    RoundIs(0x77d37528, 0xb62ec4bc, 0xcde8037d, 0x1c2c2838, 0xedffbff8, 0xc74c6516, 0x14383d8e, 0x2823ef91,
            0xc6e00bf3, 0x9d209d67, 0x44e67b7f, 0xf14e074a, 0x363482c9, 0x6112a3b7);
    RoundIs(0x363482c9, 0x77d37528, 0xb62ec4bc, 0xcde8037d, 0x6112a3b7, 0xedffbff8, 0xc74c6516, 0x14383d8e,
            0xd5a79147, 0xec8726cb, 0xdfff90ba, 0xc0067a76, 0xa0060b30, 0xade79437);
    RoundIs(0xa0060b30, 0x363482c9, 0x77d37528, 0xb62ec4bc, 0xade79437, 0x6112a3b7, 0xedffbff8, 0xc74c6516,
            0x06ca6351, 0x702138a4, 0x4adae67e, 0x9fbe43a4, 0xea992a22, 0x0109ab3a);
    RoundIs(0xea992a22, 0xa0060b30, 0x363482c9, 0x77d37528, 0x0109ab3a, 0xade79437, 0x6112a3b7, 0xedffbff8,
            0x14292967, 0xd3b7973b, 0x42859bea, 0x312da00b, 0x73b33bf5, 0xba591112);
  }

  lemma Regs32()
    ensures R(32) == Regs(0x73b33bf5, 0xea992a22, 0xa0060b30, 0x363482c9, 0xba591112, 0x0109ab3a, 0xade79437, 0x6112a3b7)
      && R(33) == Regs(0x98e12507, 0x73b33bf5, 0xea992a22, 0xa0060b30, 0x9cd9f5f6, 0xba591112, 0x0109ab3a, 0xade79437)
      && R(34) == Regs(0xfe604df5, 0x98e12507, 0x73b33bf5, 0xea992a22, 0x59249dd3, 0x9cd9f5f6, 0xba591112, 0x0109ab3a)
      && R(35) == Regs(0xa9a7738c, 0xfe604df5, 0x98e12507, 0x73b33bf5, 0x085f3833, 0x59249dd3, 0x9cd9f5f6, 0xba591112)
  {
  }

  lemma Regs36()
    ensures R(36) == Regs(0x65a0cfe4, 0xa9a7738c, 0xfe604df5, 0x98e12507, 0xf4b002d6, 0x085f3833, 0x59249dd3, 0x9cd9f5f6)
      && R(37) == Regs(0x41a65cb1, 0x65a0cfe4, 0xa9a7738c, 0xfe604df5, 0x0772a26b, 0xf4b002d6, 0x085f3833, 0x59249dd3)
      && R(38) == Regs(0x34df1604, 0x41a65cb1, 0x65a0cfe4, 0xa9a7738c, 0xa507a53d, 0x0772a26b, 0xf4b002d6, 0x085f3833)
      && R(39) == Regs(0x6dc57a8a, 0x34df1604, 0x41a65cb1, 0x65a0cfe4, 0xf0781bc8, 0xa507a53d, 0x0772a26b, 0xf4b002d6)
      && R(40) == Regs(0x79ea687a, 0x6dc57a8a, 0x34df1604, 0x41a65cb1, 0x1efbc0a0, 0xf0781bc8, 0xa507a53d, 0x0772a26b)
  {
  }

  lemma Constants32()
    ensures K(32) == 0x27b70a85 && K(33) == 0x2e1b2138 && K(34) == 0x4d2c6dfc && K(35) == 0x53380d13
      && K(36) == 0x650a7354 && K(37) == 0x766a0abb && K(38) == 0x81c2c92e && K(39) == 0x92722c85
  {
  }

  lemma RoundSteps32()
    ensures RoundStep(32) && RoundStep(33) && RoundStep(34) && RoundStep(35) && RoundStep(36) && RoundStep(37)
      && RoundStep(38) && RoundStep(39)
  {
    hide R, W, K, Round;
    Regs32();
    Regs36();
    Constants32();
    Words32();
    RoundIs(0x73b33bf5, 0xea992a22, 0xa0060b30, 0x363482c9, 0xba591112, 0x0109ab3a, 0xade79437, 0x6112a3b7,
            0x27b70a85, 0x93f5997f, 0x66a5732d, 0x323bb1da, 0x98e12507, 0x9cd9f5f6);
    RoundIs(0x98e12507, 0x73b33bf5, 0xea992a22, 0xa0060b30, 0x9cd9f5f6, 0xba591112, 0x0109ab3a, 0xade79437,
            0x2e1b2138, 0x3b68ba73, 0xb91e92a3, 0x4541bb52, 0xfe604df5, 0x59249dd3);
    RoundIs(0xfe604df5, 0x98e12507, 0x73b33bf5, 0xea992a22, 0x59249dd3, 0x9cd9f5f6, 0xba591112, 0x0109ab3a,
            0x4d2c6dfc, 0xaff4ffc1, 0x1dc60e11, 0x8be1657b, 0xa9a7738c, 0x085f3833);
    RoundIs(0xa9a7738c, 0xfe604df5, 0x98e12507, 0x73b33bf5, 0x085f3833, 0x59249dd3, 0x9cd9f5f6, 0xba591112,
            0x53380d13, 0xf10a5c62, 0x80fcc6e1, 0xe4a40903, 0x65a0cfe4, 0xf4b002d6);
    RoundIs(0x65a0cfe4, 0xa9a7738c, 0xfe604df5, 0x98e12507, 0xf4b002d6, 0x085f3833, 0x59249dd3, 0x9cd9f5f6,
            0x650a7354, 0x0a8b3996, 0x6e917d64, 0xd314df4d, 0x41a65cb1, 0x0772a26b);
    RoundIs(0x41a65cb1, 0x65a0cfe4, 0xa9a7738c, 0xfe604df5, 0x0772a26b, 0xf4b002d6, 0x085f3833, 0x59249dd3,
            0x766a0abb, 0x72af830a, 0xa6a75748, 0x8e37bebc, 0x34df1604, 0xa507a53d);
    RoundIs(0x34df1604, 0x41a65cb1, 0x65a0cfe4, 0xa9a7738c, 0xa507a53d, 0x0772a26b, 0xf4b002d6, 0x085f3833,
            0x81c2c92e, 0x9409e33e, 0x46d0a83c, 0x26f4d24e, 0x6dc57a8a, 0xf0781bc8);
    RoundIs(0x6dc57a8a, 0x34df1604, 0x41a65cb1, 0x65a0cfe4, 0xf0781bc8, 0xa507a53d, 0x0772a26b, 0xf4b002d6,
            0x92722c85, 0x24641522, 0xb95af0bc, 0xc08f77be, 0x79ea687a, 0x1efbc0a0);
  }

  lemma Regs40()
    ensures R(40) == Regs(0x79ea687a, 0x6dc57a8a, 0x34df1604, 0x41a65cb1, 0x1efbc0a0, 0xf0781bc8, 0xa507a53d, 0x0772a26b)
      && R(41) == Regs(0xd6670766, 0x79ea687a, 0x6dc57a8a, 0x34df1604, 0x26352d63, 0x1efbc0a0, 0xf0781bc8, 0xa507a53d)
      && R(42) == Regs(0xdf46652f, 0xd6670766, 0x79ea687a, 0x6dc57a8a, 0x838b2711, 0x26352d63, 0x1efbc0a0, 0xf0781bc8)
      && R(43) == Regs(0x17aa0dfe, 0xdf46652f, 0xd6670766, 0x79ea687a, 0xdecd4715, 0x838b2711, 0x26352d63, 0x1efbc0a0)
  {
  }

  lemma Regs44()
    ensures R(44) == Regs(0x9d4baf93, 0x17aa0dfe, 0xdf46652f, 0xd6670766, 0xfda24c2e, 0xdecd4715, 0x838b2711, 0x26352d63)
      && R(45) == Regs(0x26628815, 0x9d4baf93, 0x17aa0dfe, 0xdf46652f, 0xa80f11f0, 0xfda24c2e, 0xdecd4715, 0x838b2711)
      && R(46) == Regs(0x72ab4b91, 0x26628815, 0x9d4baf93, 0x17aa0dfe, 0xb7755da1, 0xa80f11f0, 0xfda24c2e, 0xdecd4715)
      && R(47) == Regs(0xa14c14b0, 0x72ab4b91, 0x26628815, 0x9d4baf93, 0xd57b94a9, 0xb7755da1, 0xa80f11f0, 0xfda24c2e)
      && R(48) == Regs(0x4172328d, 0xa14c14b0, 0x72ab4b91, 0x26628815, 0xfecf0bc6, 0xd57b94a9, 0xb7755da1, 0xa80f11f0)
  {
  }

  lemma Constants40()
    ensures K(40) == 0xa2bfe8a1 && K(41) == 0xa81a664b && K(42) == 0xc24b8b70 && K(43) == 0xc76c51a3
      && K(44) == 0xd192e819 && K(45) == 0xd6990624 && K(46) == 0xf40e3585 && K(47) == 0x106aa070
  {
  }

  lemma RoundSteps40()
    ensures RoundStep(40) && RoundStep(41) && RoundStep(42) && RoundStep(43) && RoundStep(44) && RoundStep(45)
      && RoundStep(46) && RoundStep(47)
  {
    hide R, W, K, Round;
    Regs40();
    Regs44();
    Constants40();
    Words32();
    RoundIs(0x79ea687a, 0x6dc57a8a, 0x34df1604, 0x41a65cb1, 0x1efbc0a0, 0xf0781bc8, 0xa507a53d, 0x0772a26b,
            0xa2bfe8a1, 0x9f47bf94, 0xe48ed0b2, 0xf1d836b4, 0xd6670766, 0x26352d63);
    RoundIs(0xd6670766, 0x79ea687a, 0x6dc57a8a, 0x34df1604, 0x26352d63, 0x1efbc0a0, 0xf0781bc8, 0xa507a53d,
            0xa81a664b, 0xf0a64f5a, 0x4eac110d, 0x909a5422, 0xdf46652f, 0x838b2711);
    RoundIs(0xdf46652f, 0xd6670766, 0x79ea687a, 0x6dc57a8a, 0x838b2711, 0x26352d63, 0x1efbc0a0, 0xf0781bc8,
            0xc24b8b70, 0x3e246a79, 0x7107cc8b, 0xa6a24173, 0x17aa0dfe, 0xdecd4715);
    RoundIs(0x17aa0dfe, 0xdf46652f, 0xd6670766, 0x79ea687a, 0xdecd4715, 0x838b2711, 0x26352d63, 0x1efbc0a0,
            0xc76c51a3, 0x27333ba3, 0x83b7e3b4, 0x1993cbdf, 0x9d4baf93, 0xfda24c2e);
    RoundIs(0x9d4baf93, 0x17aa0dfe, 0xdf46652f, 0xd6670766, 0xfda24c2e, 0xdecd4715, 0x838b2711, 0x26352d63,
            0xd192e819, 0x0c4763f2, 0xd1a80a8a, 0x54ba7d8b, 0x26628815, 0xa80f11f0);
    RoundIs(0x26628815, 0x9d4baf93, 0x17aa0dfe, 0xdf46652f, 0xa80f11f0, 0xfda24c2e, 0xdecd4715, 0x838b2711,
            0xd6990624, 0x840abf27, 0xd82ef872, 0x9a7c531f, 0x72ab4b91, 0xb7755da1);
    RoundIs(0x72ab4b91, 0x26628815, 0x9d4baf93, 0x17aa0dfe, 0xb7755da1, 0xa80f11f0, 0xfda24c2e, 0xdecd4715,
            0xf40e3585, 0x7a290d5d, 0xbdd186ab, 0xe37a8e05, 0xa14c14b0, 0xd57b94a9);
    RoundIs(0xa14c14b0, 0x72ab4b91, 0x26628815, 0x9d4baf93, 0xd57b94a9, 0xb7755da1, 0xa80f11f0, 0xfda24c2e,
            0x106aa070, 0x065c43da, 0x61835c33, 0xdfeed65a, 0x4172328d, 0xfecf0bc6);
  }

  lemma Regs48()
    ensures R(48) == Regs(0x4172328d, 0xa14c14b0, 0x72ab4b91, 0x26628815, 0xfecf0bc6, 0xd57b94a9, 0xb7755da1, 0xa80f11f0)
      && R(49) == Regs(0x05757ceb, 0x4172328d, 0xa14c14b0, 0x72ab4b91, 0xbd714038, 0xfecf0bc6, 0xd57b94a9, 0xb7755da1)
      && R(50) == Regs(0xf11bfaa8, 0x05757ceb, 0x4172328d, 0xa14c14b0, 0x6e5c390c, 0xbd714038, 0xfecf0bc6, 0xd57b94a9)
      && R(51) == Regs(0x7a0508a1, 0xf11bfaa8, 0x05757ceb, 0x4172328d, 0x52f1ccf7, 0x6e5c390c, 0xbd714038, 0xfecf0bc6)
  {
  }

  lemma Regs52()
    ensures R(52) == Regs(0x886e7a22, 0x7a0508a1, 0xf11bfaa8, 0x05757ceb, 0x49231c1e, 0x52f1ccf7, 0x6e5c390c, 0xbd714038)
      && R(53) == Regs(0x101fd28f, 0x886e7a22, 0x7a0508a1, 0xf11bfaa8, 0x529e7d00, 0x49231c1e, 0x52f1ccf7, 0x6e5c390c)
      && R(54) == Regs(0xf5702fdb, 0x101fd28f, 0x886e7a22, 0x7a0508a1, 0x9f4787c3, 0x529e7d00, 0x49231c1e, 0x52f1ccf7)
      && R(55) == Regs(0x3ec45cdb, 0xf5702fdb, 0x101fd28f, 0x886e7a22, 0xe50e1b4f, 0x9f4787c3, 0x529e7d00, 0x49231c1e)
      && R(56) == Regs(0x38cc9913, 0x3ec45cdb, 0xf5702fdb, 0x101fd28f, 0x54cb266b, 0xe50e1b4f, 0x9f4787c3, 0x529e7d00)
  {
  }

  lemma Constants48()
    ensures K(48) == 0x19a4c116 && K(49) == 0x1e376c08 && K(50) == 0x2748774c && K(51) == 0x34b0bcb5
      && K(52) == 0x391c0cb3 && K(53) == 0x4ed8aa4a && K(54) == 0x5b9cca4f && K(55) == 0x682e6ff3
  {
  }

  lemma RoundSteps48()
    ensures RoundStep(48) && RoundStep(49) && RoundStep(50) && RoundStep(51) && RoundStep(52) && RoundStep(53)
      && RoundStep(54) && RoundStep(55)
  {
    hide R, W, K, Round;
    Regs48();
    Regs52();
    Constants48();
    Words48();
    RoundIs(0x4172328d, 0xa14c14b0, 0x72ab4b91, 0x26628815, 0xfecf0bc6, 0xd57b94a9, 0xb7755da1, 0xa80f11f0,
            0x19a4c116, 0xfb3e89cb, 0x970eb823, 0x6e66c4c8, 0x05757ceb, 0xbd714038);
    RoundIs(0x05757ceb, 0x4172328d, 0xa14c14b0, 0x72ab4b91, 0xbd714038, 0xfecf0bc6, 0xd57b94a9, 0xb7755da1,
            0x1e376c08, 0xcc7617db, 0xfbb0ed7b, 0xf56b0d2d, 0xf11bfaa8, 0x6e5c390c);
    RoundIs(0xf11bfaa8, 0x05757ceb, 0x4172328d, 0xa14c14b0, 0x6e5c390c, 0xbd714038, 0xfecf0bc6, 0xd57b94a9,
            0x2748774c, 0xb9e66c34, 0xb1a5b847, 0xc85f505a, 0x7a0508a1, 0x52f1ccf7);
    RoundIs(0x7a0508a1, 0xf11bfaa8, 0x05757ceb, 0x4172328d, 0x52f1ccf7, 0x6e5c390c, 0xbd714038, 0xfecf0bc6,
            0x34b0bcb5, 0xa9993667, 0x07b0e991, 0x80bd9091, 0x886e7a22, 0x49231c1e);
    RoundIs(0x886e7a22, 0x7a0508a1, 0xf11bfaa8, 0x05757ceb, 0x49231c1e, 0x52f1ccf7, 0x6e5c390c, 0xbd714038,
            0x391c0cb3, 0x84badedd, 0x4d290015, 0xc2f6d27a, 0x101fd28f, 0x529e7d00);
    RoundIs(0x101fd28f, 0x886e7a22, 0x7a0508a1, 0xf11bfaa8, 0x529e7d00, 0x49231c1e, 0x52f1ccf7, 0x6e5c390c,
            0x4ed8aa4a, 0xc21462bc, 0xae2b8d1b, 0x4744a2c0, 0xf5702fdb, 0x9f4787c3);
    RoundIs(0xf5702fdb, 0x101fd28f, 0x886e7a22, 0x7a0508a1, 0x9f4787c3, 0x529e7d00, 0x49231c1e, 0x52f1ccf7,
            0x5b9cca4f, 0x1487472c, 0x6b0912ae, 0xd3bb4a2d, 0x3ec45cdb, 0xe50e1b4f);
    RoundIs(0x3ec45cdb, 0xf5702fdb, 0x101fd28f, 0x886e7a22, 0xe50e1b4f, 0x9f4787c3, 0x529e7d00, 0x49231c1e,
            0x682e6ff3, 0xb20f7a99, 0xcc5cac49, 0x6c6fecca, 0x38cc9913, 0x54cb266b);
  }

  lemma Regs56()
    ensures R(56) == Regs(0x38cc9913, 0x3ec45cdb, 0xf5702fdb, 0x101fd28f, 0x54cb266b, 0xe50e1b4f, 0x9f4787c3, 0x529e7d00)
      && R(57) == Regs(0xfcd1887b, 0x38cc9913, 0x3ec45cdb, 0xf5702fdb, 0x9b5e906c, 0x54cb266b, 0xe50e1b4f, 0x9f4787c3)
      && R(58) == Regs(0xc062d46f, 0xfcd1887b, 0x38cc9913, 0x3ec45cdb, 0x7e44008e, 0x9b5e906c, 0x54cb266b, 0xe50e1b4f)
      && R(59) == Regs(0xffb70472, 0xc062d46f, 0xfcd1887b, 0x38cc9913, 0x6d83bfc6, 0x7e44008e, 0x9b5e906c, 0x54cb266b)
  {
  }

  lemma Regs60()
    ensures R(60) == Regs(0xb6ae8fff, 0xffb70472, 0xc062d46f, 0xfcd1887b, 0xb21bad3d, 0x6d83bfc6, 0x7e44008e, 0x9b5e906c)
      && R(61) == Regs(0xb85e2ce9, 0xb6ae8fff, 0xffb70472, 0xc062d46f, 0x961f4894, 0xb21bad3d, 0x6d83bfc6, 0x7e44008e)
      && R(62) == Regs(0x04d24d6c, 0xb85e2ce9, 0xb6ae8fff, 0xffb70472, 0x948d25b6, 0x961f4894, 0xb21bad3d, 0x6d83bfc6)
      && R(63) == Regs(0xd39a2165, 0x04d24d6c, 0xb85e2ce9, 0xb6ae8fff, 0xfb121210, 0x948d25b6, 0x961f4894, 0xb21bad3d)
      && R(64) == Regs(0x506e3058, 0xd39a2165, 0x04d24d6c, 0xb85e2ce9, 0x5ef50f24, 0xfb121210, 0x948d25b6, 0x961f4894)
  {
  }

  lemma Constants56()
    ensures K(56) == 0x748f82ee && K(57) == 0x78a5636f && K(58) == 0x84c87814 && K(59) == 0x8cc70208
      && K(60) == 0x90befffa && K(61) == 0xa4506ceb && K(62) == 0xbef9a3f7 && K(63) == 0xc67178f2
  {
  }

  lemma RoundSteps56()
    ensures RoundStep(56) && RoundStep(57) && RoundStep(58) && RoundStep(59) && RoundStep(60) && RoundStep(61)
      && RoundStep(62) && RoundStep(63)
  {
    hide R, W, K, Round;
    Regs56();
    Regs60();
    Constants56();
    Words48();
    RoundIs(0x38cc9913, 0x3ec45cdb, 0xf5702fdb, 0x101fd28f, 0x54cb266b, 0xe50e1b4f, 0x9f4787c3, 0x529e7d00,
            0x748f82ee, 0xef57b9cd, 0x8b3ebddd, 0x7192ca9e, 0xfcd1887b, 0x9b5e906c);
    RoundIs(0xfcd1887b, 0x38cc9913, 0x3ec45cdb, 0xf5702fdb, 0x9b5e906c, 0x54cb266b, 0xe50e1b4f, 0x9f4787c3,
            0x78a5636f, 0xebe6b238, 0x88d3d0b3, 0x378f03bc, 0xc062d46f, 0x7e44008e);
    RoundIs(0xc062d46f, 0xfcd1887b, 0x38cc9913, 0x3ec45cdb, 0x7e44008e, 0x9b5e906c, 0x54cb266b, 0xe50e1b4f,
            0x84c87814, 0x9fe3095e, 0x2ebf62eb, 0xd0f7a187, 0xffb70472, 0x6d83bfc6);
    RoundIs(0xffb70472, 0xc062d46f, 0xfcd1887b, 0x38cc9913, 0x6d83bfc6, 0x7e44008e, 0x9b5e906c, 0x54cb266b,
            0x8cc70208, 0x78bc8d4b, 0x794f142a, 0x3d5f7bd5, 0xb6ae8fff, 0xb21bad3d);
    RoundIs(0xb6ae8fff, 0xffb70472, 0xc062d46f, 0xfcd1887b, 0xb21bad3d, 0x6d83bfc6, 0x7e44008e, 0x9b5e906c,
            0x90befffa, 0xa43fcf15, 0x994dc019, 0x1f106cd0, 0xb85e2ce9, 0x961f4894);
    RoundIs(0xb85e2ce9, 0xb6ae8fff, 0xffb70472, 0xc062d46f, 0x961f4894, 0xb21bad3d, 0x6d83bfc6, 0x7e44008e,
            0xa4506ceb, 0x668b2ff8, 0xd42a5147, 0x30a7fc25, 0x04d24d6c, 0x948d25b6);
    RoundIs(0x04d24d6c, 0xb85e2ce9, 0xb6ae8fff, 0xffb70472, 0x948d25b6, 0x961f4894, 0xb21bad3d, 0x6d83bfc6,
            0xbef9a3f7, 0xeeaba2cc, 0xfb5b0d9e, 0xd83f13c7, 0xd39a2165, 0xfb121210);
    RoundIs(0xd39a2165, 0x04d24d6c, 0xb85e2ce9, 0xb6ae8fff, 0xfb121210, 0x948d25b6, 0x961f4894, 0xb21bad3d,
            0xc67178f2, 0x12b1edeb, 0xa8467f25, 0xa827b133, 0x506e3058, 0x5ef50f24);
  }

  lemma RoundSteps(n: nat)
    requires n < 64
    ensures RoundStep(n)
  {
    hide RoundStep, R, W, K, Round;
    if 0 <= n < 8 { RoundSteps0(); }
    if 8 <= n < 16 { RoundSteps8(); }
    if 16 <= n < 24 { RoundSteps16(); }
    if 24 <= n < 32 { RoundSteps24(); }
    if 32 <= n < 40 { RoundSteps32(); }
    if 40 <= n < 48 { RoundSteps40(); }
    if 48 <= n < 56 { RoundSteps48(); }
    if 56 <= n < 64 { RoundSteps56(); }
  }

  lemma StartIs()
    ensures RegsOf(IV) == R(0)
  {
  }

  lemma {:induction false} RoundsAre(n: nat)
    requires n <= 64
    ensures Rounds(RegsOf(IV), Block(), n) == R(n)
    decreases n
  {
    hide Rounds, R, W, K, Round, Block, Schedule, RegsOf;
    if n == 0 {
      StartIs();
      RoundAt(RegsOf(IV), Block(), 0);
    } else {
      RoundsAre(n - 1);
      RoundAt(RegsOf(IV), Block(), n - 1);
      ScheduleIs(n - 1);
      RoundSteps(n - 1);
    }
  }

  const HASH: seq<Word> := [0xba7816bf, 0x8f01cfea, 0x414140de, 0x5dae2223, 0xb00361a3, 0x96177a9c, 0xb410ff61, 0xf20015ad]

  lemma AbcCompressed()
    ensures Compress(IV, Block()) == HASH
  {
    hide Rounds, Block;
    RoundsAre(64);
    LastRegs();
  }

  lemma LastRegs()
    ensures AddRegs(IV, R(64)) == HASH
  {
  }

  const ABC_HASH: seq<Byte> := [
    0xba, 0x78, 0x16, 0xbf, 0x8f, 0x01, 0xcf, 0xea, 0x41, 0x41, 0x40, 0xde, 0x5d, 0xae, 0x22, 0x23,
    0xb0, 0x03, 0x61, 0xa3, 0x96, 0x17, 0x7a, 0x9c, 0xb4, 0x10, 0xff, 0x61, 0xf2, 0x00, 0x15, 0xad]

  /** The published digest of "abc". */
  lemma AbcDigest()
    ensures Digest(ABC) == ABC_HASH
  {
    hide Compress, Fold, Pad, WordBytes, Block;
    AbcPadded();
    FoldOne(IV, Block());
    AbcCompressed();
    AbcBytes();
  }

  lemma AbcBytes()
    ensures WordBytes(HASH) == ABC_HASH
  {
    hide WordByte;
    FirstHalf();
    SecondHalf();
  }

  lemma FirstHalf()
    ensures WordBytes(HASH)[..16] == ABC_HASH[..16]
  {
    hide WordByte;
    HashBytes0();
    HashBytes1();
    HashBytes2();
    HashBytes3();
  }

  lemma SecondHalf()
    ensures WordBytes(HASH)[16..] == ABC_HASH[16..]
  {
    hide WordByte;
    HashBytes4();
    HashBytes5();
    HashBytes6();
    HashBytes7();
  }

  lemma HashBytes0()
    ensures HASH[0] == 0xba7816bf
    ensures WordByte(0xba7816bf, 0) == 0xba && WordByte(0xba7816bf, 1) == 0x78 && WordByte(0xba7816bf, 2) == 0x16 && WordByte(0xba7816bf, 3) == 0xbf
  {
    hide WordByte;
    OneByte(0xba7816bf, 0, 0xba);
    OneByte(0xba7816bf, 1, 0x78);
    OneByte(0xba7816bf, 2, 0x16);
    OneByte(0xba7816bf, 3, 0xbf);
  }

  lemma HashBytes1()
    ensures HASH[1] == 0x8f01cfea
    ensures WordByte(0x8f01cfea, 0) == 0x8f && WordByte(0x8f01cfea, 1) == 0x01 && WordByte(0x8f01cfea, 2) == 0xcf && WordByte(0x8f01cfea, 3) == 0xea
  {
    hide WordByte;
    OneByte(0x8f01cfea, 0, 0x8f);
    OneByte(0x8f01cfea, 1, 0x01);
    OneByte(0x8f01cfea, 2, 0xcf);
    OneByte(0x8f01cfea, 3, 0xea);
  }

  lemma HashBytes2()
    ensures HASH[2] == 0x414140de
    ensures WordByte(0x414140de, 0) == 0x41 && WordByte(0x414140de, 1) == 0x41 && WordByte(0x414140de, 2) == 0x40 && WordByte(0x414140de, 3) == 0xde
  {
    hide WordByte;
    OneByte(0x414140de, 0, 0x41);
    OneByte(0x414140de, 1, 0x41);
    OneByte(0x414140de, 2, 0x40);
    OneByte(0x414140de, 3, 0xde);
  }

  lemma HashBytes3()
    ensures HASH[3] == 0x5dae2223
    ensures WordByte(0x5dae2223, 0) == 0x5d && WordByte(0x5dae2223, 1) == 0xae && WordByte(0x5dae2223, 2) == 0x22 && WordByte(0x5dae2223, 3) == 0x23
  {
    hide WordByte;
    OneByte(0x5dae2223, 0, 0x5d);
    OneByte(0x5dae2223, 1, 0xae);
    OneByte(0x5dae2223, 2, 0x22);
    OneByte(0x5dae2223, 3, 0x23);
  }

  lemma HashBytes4()
    ensures HASH[4] == 0xb00361a3
    ensures WordByte(0xb00361a3, 0) == 0xb0 && WordByte(0xb00361a3, 1) == 0x03 && WordByte(0xb00361a3, 2) == 0x61 && WordByte(0xb00361a3, 3) == 0xa3
  {
    hide WordByte;
    OneByte(0xb00361a3, 0, 0xb0);
    OneByte(0xb00361a3, 1, 0x03);
    OneByte(0xb00361a3, 2, 0x61);
    OneByte(0xb00361a3, 3, 0xa3);
  }

  lemma HashBytes5()
    ensures HASH[5] == 0x96177a9c
    ensures WordByte(0x96177a9c, 0) == 0x96 && WordByte(0x96177a9c, 1) == 0x17 && WordByte(0x96177a9c, 2) == 0x7a && WordByte(0x96177a9c, 3) == 0x9c
  {
    hide WordByte;
    OneByte(0x96177a9c, 0, 0x96);
    OneByte(0x96177a9c, 1, 0x17);
    OneByte(0x96177a9c, 2, 0x7a);
    OneByte(0x96177a9c, 3, 0x9c);
  }

  lemma HashBytes6()
    ensures HASH[6] == 0xb410ff61
    ensures WordByte(0xb410ff61, 0) == 0xb4 && WordByte(0xb410ff61, 1) == 0x10 && WordByte(0xb410ff61, 2) == 0xff && WordByte(0xb410ff61, 3) == 0x61
  {
    hide WordByte;
    OneByte(0xb410ff61, 0, 0xb4);
    OneByte(0xb410ff61, 1, 0x10);
    OneByte(0xb410ff61, 2, 0xff);
    OneByte(0xb410ff61, 3, 0x61);
  }

  lemma HashBytes7()
    ensures HASH[7] == 0xf20015ad
    ensures WordByte(0xf20015ad, 0) == 0xf2 && WordByte(0xf20015ad, 1) == 0x00 && WordByte(0xf20015ad, 2) == 0x15 && WordByte(0xf20015ad, 3) == 0xad
  {
    hide WordByte;
    OneByte(0xf20015ad, 0, 0xf2);
    OneByte(0xf20015ad, 1, 0x00);
    OneByte(0xf20015ad, 2, 0x15);
    OneByte(0xf20015ad, 3, 0xad);
  }

  lemma OneByte(w: Word, i: nat, a: Byte)
    requires i < 4 && ((w >> (24 - 8 * i)) & 0xFF) as Byte == a
    ensures WordByte(w, i) == a
  {
  }
}
