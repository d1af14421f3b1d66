/** The PNG check value: the table of core/src/screendump.c against one bit at a time. */
module Crc32 {
  type Byte = x: int | 0 <= x < 256
  type Bytes = seq<Byte>
  type Word = bv32

  function Xor(x: Word, y: Word): Word { x ^ y }
  function Half(x: Word): Word { x >> 1 }
  function Down(x: Word): Word { x >> 8 }
  function Low(x: Word): Word { x & 0xFF }
  function High(x: Word): Word { x & 0xFFFFFF00 }
  function Odd(x: Word): bool { x & 1 == 1 }

  const POLY: Word := 0xEDB88320

  /** One bit of the CRC register, as the table builder shifts it. */
  function Shift(c: Word): Word { if Odd(c) then Xor(POLY, Half(c)) else Half(c) }

  function Shifts(c: Word, k: nat): Word { if k == 0 then c else Shift(Shifts(c, k - 1)) }

  /** The reference: one message bit at a time, least significant first. */
  function CrcBit(c: Word, bit: bool): Word { if Odd(c) != bit then Xor(Half(c), POLY) else Half(c) }

  /** b shifted right k times. */
  function Right(b: Word, k: nat): Word { if k == 0 then b else Half(Right(b, k - 1)) }

  function CrcBits(c: Word, b: Word, k: nat): Word {
    if k == 0 then c else CrcBit(CrcBits(c, b, k - 1), Odd(Right(b, k - 1)))
  }

  function AsWord(b: Byte): Word { b as Word }

  function CrcByte(c: Word, b: Byte): Word { CrcBits(c, AsWord(b), 8) }

  function CrcOf(c: Word, s: Bytes): Word
    decreases |s|
  {
    if s == [] then c else CrcOf(CrcByte(c, s[0]), s[1..])
  }

  lemma XorBits(y: Word, z: Word)
    ensures (y ^ z) >> 1 == (y >> 1) ^ (z >> 1)
    ensures (y ^ z) & 1 == (y & 1) ^ (z & 1)
  {
  }

  lemma BitCases(y: Word)
    ensures y & 1 == 0 || y & 1 == 1
  {
  }

  lemma XorFacts(y: Word, z: Word)
    ensures Half(Xor(y, z)) == Xor(Half(y), Half(z)) && (Odd(Xor(y, z)) <==> Odd(y) != Odd(z))
  {
    XorBits(y, z);
    BitCases(y);
    BitCases(z);
  }

  lemma XorSwaps(p: Word, a: Word, b: Word)
    ensures Xor(p, Xor(a, b)) == Xor(Xor(p, a), b) && Xor(p, Xor(a, b)) == Xor(Xor(a, p), b)
  {
  }

  lemma OneBit(y: Word, z: Word)
    ensures Shift(Xor(y, z)) == Xor(CrcBit(y, Odd(z)), Half(z))
  {
    hide Xor, Half, Odd;
    XorFacts(y, z);
    XorSwaps(POLY, Half(y), Half(z));
  }

  /** Shifting register and byte together is shifting the register bit by bit. */
  lemma {:induction false} BitsTogether(c: Word, b: Word, k: nat)
    ensures Shifts(Xor(c, b), k) == Xor(CrcBits(c, b, k), Right(b, k))
    decreases k
  {
    hide Shift, CrcBit, Half, Xor, Odd;
    if k > 0 {
      BitsTogether(c, b, k - 1);
      OneBit(CrcBits(c, b, k - 1), Right(b, k - 1));
    }
  }

  lemma ShiftSplit(lo: Word, hi: Word)
    requires !Odd(hi)
    ensures Shift(Xor(lo, hi)) == Xor(Shift(lo), Half(hi))
  {
    hide Xor, Half, Odd;
    XorFacts(lo, hi);
    XorSwaps(POLY, Half(lo), Half(hi));
  }

  /** Only the low eight bits decide what eight shifts mix in. */
  lemma {:induction false} ShiftsSplit(lo: Word, hi: Word, k: nat)
    requires forall j :: 0 <= j < k ==> !Odd(Right(hi, j))
    ensures Shifts(Xor(lo, hi), k) == Xor(Shifts(lo, k), Right(hi, k))
    decreases k
  {
    hide Shift, Half, Xor, Odd;
    if k > 0 {
      ShiftsSplit(lo, hi, k - 1);
      ShiftSplit(Shifts(lo, k - 1), Right(hi, k - 1));
    }
  }

  /** The lowest n bits are zero. */
  predicate Clear(x: Word, n: nat)
    requires n <= 8
  {
    match n
    case 0 => true
    case 1 => x & 0x01 == 0
    case 2 => x & 0x03 == 0
    case 3 => x & 0x07 == 0
    case 4 => x & 0x0F == 0
    case 5 => x & 0x1F == 0
    case 6 => x & 0x3F == 0
    case 7 => x & 0x7F == 0
    case 8 => x & 0xFF == 0
  }

  lemma ClearHalf(x: Word, n: nat)
    requires 0 < n <= 8 && Clear(x, n)
    ensures Clear(Half(x), n - 1) && !Odd(x)
  {
  }

  lemma {:induction false} HighShifts(x: Word, j: nat)
    requires j <= 8
    ensures Clear(Right(High(x), j), 8 - j) && (j < 8 ==> !Odd(Right(High(x), j)))
    decreases j
  {
    hide Half, High, Odd, Clear;
    if j == 0 { ClearHigh(x); } else { HighShifts(x, j - 1); ClearHalf(Right(High(x), j - 1), 9 - j); }
    if j < 8 { ClearHalf(Right(High(x), j), 8 - j); }
  }

  lemma ClearHigh(x: Word)
    ensures Clear(High(x), 8)
  {
  }

  lemma Rights(b: Word)
    ensures Right(b, 8) == Half(Half(Half(Half(Half(Half(Half(Half(b))))))))
  {
    hide Half;
    assert Right(b, 2) == Half(Right(b, 1)) && Right(b, 3) == Half(Right(b, 2)) && Right(b, 4) == Half(Right(b, 3));
    assert Right(b, 5) == Half(Right(b, 4)) && Right(b, 6) == Half(Right(b, 5)) && Right(b, 7) == Half(Right(b, 6));
  }

  lemma HalfTwice(b: Word)
    ensures Half(Half(b)) == b >> 2
  {
  }

  lemma Quarters(b: Word)
    ensures (b >> 2) >> 2 == b >> 4
  {
  }

  lemma Sixteenths(b: Word)
    ensures (b >> 4) >> 4 == Down(b)
  {
  }

  lemma FourHalves(b: Word)
    ensures Half(Half(Half(Half(b)))) == b >> 4
  {
    hide Half;
    HalfTwice(b);
    HalfTwice(b >> 2);
    Quarters(b);
  }

  lemma EightHalves(b: Word)
    ensures Right(b, 8) == Down(b)
  {
    hide Right, Half, Down;
    Rights(b);
    FourHalves(b);
    FourHalves(b >> 4);
    Sixteenths(b);
  }

  lemma HighShifted(x: Word)
    ensures Down(High(x)) == Down(x)
  {
  }

  lemma Small(b: Byte)
    ensures Down(AsWord(b)) == 0
  {
  }

  lemma Parts(c: Word, w: Word)
    requires Down(w) == 0
    ensures Xor(Low(Xor(c, w)), High(Xor(c, w))) == Xor(c, w) && Down(Xor(c, w)) == Down(c)
  {
  }

  lemma XorZero(x: Word)
    ensures Xor(x, 0) == x
  {
  }

  /** A table lookup does the work of eight single bits. */
  lemma TableStep(c: Word, b: Byte)
    ensures Xor(Shifts(Low(Xor(c, AsWord(b))), 8), Down(c)) == CrcByte(c, b)
  {
    hide Shifts, Right, CrcBits, AsWord, Xor, Low, High, Odd, Down, Half;
    var x := Xor(c, AsWord(b));
    Small(b);
    Parts(c, AsWord(b));
    BitsTogether(c, AsWord(b), 8);
    forall j | 0 <= j < 8 ensures !Odd(Right(High(x), j)) { HighShifts(x, j); }
    ShiftsSplit(Low(x), High(x), 8);
    EightHalves(High(x));
    HighShifted(x);
    EightHalves(AsWord(b));
    XorZero(CrcBits(c, AsWord(b), 8));
  }

  lemma LowIndex(x: Word)
    ensures (Low(x) as int) < 256 && ((Low(x) as int) as Word) == Low(x)
  {
  }

  predicate IsTable(t: seq<Word>) { |t| == 256 && forall n :: 0 <= n < 256 ==> t[n] == Shifts(n as Word, 8) }

  method BuildTable() returns (t: array<Word>)
    ensures fresh(t) && IsTable(t[..])
  {
    hide Shift;
    t := new Word[256];
    for n := 0 to 256
      invariant forall m :: 0 <= m < n ==> t[m] == Shifts(m as Word, 8)
    {
      var c: Word := n as Word;
      for k := 0 to 8
        invariant c == Shifts(n as Word, k)
      {
        c := Shift(c);
      }
      t[n] := c;
    }
  }

  /** Runs the register over s by table. */
  method CrcByTable(t: seq<Word>, c0: Word, s: Bytes) returns (c: Word)
    requires IsTable(t)
    ensures c == CrcOf(c0, s)
  {
    hide Shifts, CrcByte, Xor, Low, Down, AsWord;
    c := c0;
    assert s[0..] == s;
    for i := 0 to |s|
      invariant CrcOf(c, s[i..]) == CrcOf(c0, s)
    {
      assert s[i..][1..] == s[i + 1..];
      var x := Low(Xor(c, AsWord(s[i])));
      LowIndex(Xor(c, AsWord(s[i])));
      TableStep(c, s[i]);
      c := Xor(t[x as int], Down(c));
    }
  }

  lemma {:induction false} CrcAppend(c: Word, a: Bytes, b: Bytes)
    ensures CrcOf(c, a + b) == CrcOf(CrcOf(c, a), b)
    decreases |a|
  {
    hide CrcByte;
    if a == [] {
      assert a + b == b;
    } else {
      assert (a + b)[1..] == a[1..] + b;
      CrcAppend(CrcByte(c, a[0]), a[1..], b);
    }
  }

  /** The check value of a run of bytes, as a number. */
  function Crc(s: Bytes): (r: nat)
    ensures r < 0x1_0000_0000
  {
    Xor(CrcOf(0xFFFFFFFF, s), 0xFFFFFFFF) as int
  }

  // ------------------------------------------------------------- a known check value

  /** The check value every PNG file ends with. */
  lemma EndValue()
    ensures Crc([0x49, 0x45, 0x4E, 0x44]) == 0xAE426082
  {
    hide CrcByte;
    AfterI();
    AfterE();
    AfterN();
    AfterD();
    var s: Bytes := [0x49, 0x45, 0x4E, 0x44];
    assert s[1..] == [0x45, 0x4E, 0x44] && s[1..][1..] == [0x4E, 0x44] && s[1..][1..][1..] == [0x44];
    assert CrcOf(0x51BD9F7D, []) == 0x51BD9F7D;
    assert CrcOf(0x639F4775, [0x44]) == 0x51BD9F7D;
    assert CrcOf(0x992BAC53, [0x4E, 0x44]) == 0x51BD9F7D;
    assert CrcOf(0x22FDE946, [0x45, 0x4E, 0x44]) == 0x51BD9F7D;
  }

  /** A byte is eight bits, the lowest first. */
  lemma EightBits(c: Word, b: Word)
    ensures CrcBits(c, b, 8) ==
      CrcBit(CrcBit(CrcBit(CrcBit(CrcBit(CrcBit(CrcBit(CrcBit(c, Odd(b)), Odd(b >> 1)), Odd(b >> 2)), Odd(b >> 3)),
                                  Odd(b >> 4)), Odd(b >> 5)), Odd(b >> 6)), Odd(b >> 7))
  {
    hide CrcBit, Odd;
    assert Right(b, 0) == b && Right(b, 1) == b >> 1 && Right(b, 2) == b >> 2 && Right(b, 3) == b >> 3;
    assert Right(b, 4) == b >> 4 && Right(b, 5) == b >> 5 && Right(b, 6) == b >> 6 && Right(b, 7) == b >> 7;
    assert CrcBits(c, b, 1) == CrcBit(c, Odd(b));
    assert CrcBits(c, b, 2) == CrcBit(CrcBits(c, b, 1), Odd(b >> 1));
    assert CrcBits(c, b, 3) == CrcBit(CrcBits(c, b, 2), Odd(b >> 2));
    assert CrcBits(c, b, 4) == CrcBit(CrcBits(c, b, 3), Odd(b >> 3));
    assert CrcBits(c, b, 5) == CrcBit(CrcBits(c, b, 4), Odd(b >> 4));
    assert CrcBits(c, b, 6) == CrcBit(CrcBits(c, b, 5), Odd(b >> 5));
    assert CrcBits(c, b, 7) == CrcBit(CrcBits(c, b, 6), Odd(b >> 6));
  }

  lemma AfterI()
    ensures CrcByte(0xFFFFFFFF, 0x49) == 0x22FDE946
  {
    hide CrcBits;
    EightBits(0xFFFFFFFF, 0x49);
    assert CrcBit(0xFFFFFFFF, true) == 0x7FFFFFFF;
    assert CrcBit(0x7FFFFFFF, false) == 0xD2477CDF;
    assert CrcBit(0xD2477CDF, false) == 0x849B3D4F;
    assert CrcBit(0x849B3D4F, true) == 0x424D9EA7;
    assert CrcBit(0x424D9EA7, false) == 0xCC9E4C73;
    assert CrcBit(0xCC9E4C73, false) == 0x8BF7A519;
    assert CrcBit(0x8BF7A519, true) == 0x45FBD28C;
    assert CrcBit(0x45FBD28C, false) == 0x22FDE946;
  }

  lemma AfterE()
    ensures CrcByte(0x22FDE946, 0x45) == 0x992BAC53
  {
    hide CrcBits;
    EightBits(0x22FDE946, 0x45);
    assert CrcBit(0x22FDE946, true) == 0xFCC67783;
    assert CrcBit(0xFCC67783, false) == 0x93DBB8E1;
    assert CrcBit(0x93DBB8E1, true) == 0x49EDDC70;
    assert CrcBit(0x49EDDC70, false) == 0x24F6EE38;
    assert CrcBit(0x24F6EE38, false) == 0x127B771C;
    assert CrcBit(0x127B771C, false) == 0x093DBB8E;
    assert CrcBit(0x093DBB8E, true) == 0xE9265EE7;
    assert CrcBit(0xE9265EE7, false) == 0x992BAC53;
  }

  lemma AfterN()
    ensures CrcByte(0x992BAC53, 0x4E) == 0x639F4775
  {
    hide CrcBits;
    EightBits(0x992BAC53, 0x4E);
    assert CrcBit(0x992BAC53, false) == 0xA12D5509;
    assert CrcBit(0xA12D5509, true) == 0x5096AA84;
    assert CrcBit(0x5096AA84, true) == 0xC5F3D662;
    assert CrcBit(0xC5F3D662, true) == 0x8F416811;
    assert CrcBit(0x8F416811, false) == 0xAA183728;
    assert CrcBit(0xAA183728, false) == 0x550C1B94;
    assert CrcBit(0x550C1B94, true) == 0xC73E8EEA;
    assert CrcBit(0xC73E8EEA, false) == 0x639F4775;
  }

  lemma AfterD()
    ensures CrcByte(0x639F4775, 0x44) == 0x51BD9F7D
  {
    hide CrcBits;
    EightBits(0x639F4775, 0x44);
    assert CrcBit(0x639F4775, false) == 0xDC77209A;
    assert CrcBit(0xDC77209A, false) == 0x6E3B904D;
    assert CrcBit(0x6E3B904D, true) == 0x371DC826;
    assert CrcBit(0x371DC826, false) == 0x1B8EE413;
    assert CrcBit(0x1B8EE413, false) == 0xE07FF129;
    assert CrcBit(0xE07FF129, false) == 0x9D877BB4;
    assert CrcBit(0x9D877BB4, true) == 0xA37B3EFA;
    assert CrcBit(0xA37B3EFA, false) == 0x51BD9F7D;
  }
}

/** The PNG writer (core/src/screendump.c), and a decoder (RFC 1950, RFC 1951 section 3.2.4, PNG
    chunks and filter type 0) that reads its files back. */
module Screendump {
  import opened Runs
  import opened Crc32

  // ---------------------------------------------------------- numbers in bytes

  function Be32(n: nat): (r: Bytes)
    ensures |r| == 4
  {
    [n / 0x100_0000 % 256, n / 0x1_0000 % 256, n / 256 % 256, n % 256]
  }

  function ReadBe32(s: Bytes): nat
    requires |s| >= 4
  {
    (s[0] as int) * 0x100_0000 + (s[1] as int) * 0x1_0000 + (s[2] as int) * 256 + (s[3] as int)
  }

  lemma Be32RoundTrip(n: nat)
    requires n < 0x1_0000_0000
    ensures ReadBe32(Be32(n)) == n
  {
    var a := n / 256;
    var b := a / 256;
    var c := b / 256;
    assert n == a * 256 + n % 256 && a == b * 256 + a % 256 && b == c * 256 + b % 256;
    assert n / 0x1_0000 == b && n / 0x100_0000 == c && c < 256;
  }

  // -------------------------------------------------------------------- Adler-32

  const ADLER: nat := 65521

  function Sum(s: Bytes): nat
    decreases |s|
  {
    if s == [] then 0 else Sum(s[..|s| - 1]) + s[|s| - 1]
  }

  /** The sum of all the first sums. */
  function SumOfSums(s: Bytes): nat
    decreases |s|
  {
    if s == [] then 0 else SumOfSums(s[..|s| - 1]) + 1 + Sum(s)
  }

  /** RFC 1950: both sums modulo 65521, the first starting from 1. */
  function Adler32(s: Bytes): (r: nat)
    ensures r < 0x1_0000_0000
  {
    SumOfSums(s) % ADLER * 65536 + (1 + Sum(s)) % ADLER
  }

  method ComputeAdler(d: Bytes) returns (r: nat)
    ensures r == Adler32(d)
  {
    var s1, s2 := 1, 0;
    for i := 0 to |d|
      invariant s1 == (1 + Sum(d[..i])) % ADLER && s2 == SumOfSums(d[..i]) % ADLER
    {
      assert d[..i + 1][..i] == d[..i];
      ReduceFirst(1 + Sum(d[..i]), d[i]);
      ReduceFirst(SumOfSums(d[..i]), 1 + Sum(d[..i + 1]));
      s1 := (s1 + d[i]) % ADLER;
      s2 := (s2 + s1) % ADLER;
      ReduceSecond(SumOfSums(d[..i]), 1 + Sum(d[..i + 1]));
    }
    assert d[..|d|] == d;
    r := s2 * 65536 + s1;
  }

  lemma ReduceFirst(a: nat, b: nat)
    ensures (a % ADLER + b) % ADLER == (a + b) % ADLER
  {
  }

  lemma ReduceSecond(a: nat, b: nat)
    ensures (a % ADLER + b % ADLER) % ADLER == (a + b) % ADLER
  {
  }

  // ------------------------------------------------------------- stored deflate

  /** One stored block. */
  function Block(last: bool, data: Bytes): Bytes
    requires |data| <= 65535
  {
    [if last then 1 else 0, |data| % 256, |data| / 256, (65535 - |data|) % 256, (65535 - |data|) / 256] + data
  }

  function Blocks(raw: Bytes): Bytes
    decreases |raw|
  {
    if |raw| <= 65535 then Block(true, raw) else Block(false, raw[..65535]) + Blocks(raw[65535..])
  }

  function BlockCount(n: nat): nat { (n + 65534) / 65535 }

  lemma {:induction false} BlocksSize(raw: Bytes)
    requires raw != []
    ensures |Blocks(raw)| == 5 * BlockCount(|raw|) + |raw|
    decreases |raw|
  {
    if |raw| > 65535 { BlocksSize(raw[65535..]); }
  }

  /** Reads stored blocks up to the final one: the data, and what follows. */
  function Inflate(s: Bytes): Option<(Bytes, Bytes)>
    decreases |s|
  {
    if |s| < 5 || s[0] / 2 % 4 != 0 then None
    else
      var len, nlen := s[1] as int + 256 * (s[2] as int), s[3] as int + 256 * (s[4] as int);
      if nlen != 65535 - len || |s| < 5 + len then None
      else if s[0] % 2 == 1 then Some((s[5..5 + len], s[5 + len..]))
      else
        match Inflate(s[5 + len..])
        case None => None
        case Some((data, rest)) => Some((s[5..5 + len] + data, rest))
  }

  lemma InflateBlock(last: bool, data: Bytes, t: Bytes)
    requires |data| <= 65535
    ensures Inflate(Block(last, data) + t) ==
      if last then Some((data, t))
      else match Inflate(t) case None => None case Some((more, rest)) => Some((data + more, rest))
  {
    var s := Block(last, data) + t;
    assert s[5..5 + |data|] == data && s[5 + |data|..] == t;
  }

  lemma {:induction false} InflateBlocks(raw: Bytes, t: Bytes)
    ensures Inflate(Blocks(raw) + t) == Some((raw, t))
    decreases |raw|
  {
    hide Inflate, Block;
    if |raw| <= 65535 {
      InflateBlock(true, raw, t);
    } else {
      InflateBlocks(raw[65535..], t);
      InflateBlock(false, raw[..65535], Blocks(raw[65535..]) + t);
      assert Block(false, raw[..65535]) + Blocks(raw[65535..]) + t == Block(false, raw[..65535]) + (Blocks(raw[65535..]) + t);
      assert raw[..65535] + raw[65535..] == raw;
    }
  }

  /** A zlib stream of stored blocks. */
  function Zlib(raw: Bytes): Bytes { [0x78, 0x01] + Blocks(raw) + Be32(Adler32(raw)) }

  /** Checks the header, inflates, and checks the sum. */
  function Unzlib(s: Bytes): Option<Bytes> {
    if |s| < 2 || s[0] % 16 != 8 || s[0] / 16 > 7 || ((s[0] as int) * 256 + s[1] as int) % 31 != 0 || s[1] / 32 % 2 != 0 then None
    else
      match Inflate(s[2..])
      case None => None
      case Some((data, rest)) => if |rest| == 4 && ReadBe32(rest) == Adler32(data) then Some(data) else None
  }

  lemma ZlibRoundTrip(raw: Bytes)
    ensures Unzlib(Zlib(raw)) == Some(raw)
  {
    hide Inflate, Blocks, Adler32, Be32, ReadBe32;
    assert Zlib(raw)[2..] == Blocks(raw) + Be32(Adler32(raw));
    InflateBlocks(raw, Be32(Adler32(raw)));
    Be32RoundTrip(Adler32(raw));
  }

  // ------------------------------------------------------------------- scanlines

  lemma Area(w: nat, h: nat)
    ensures 3 * w * (h + 1) == 3 * w * h + 3 * w
  {
  }

  /** The first h scanlines: a filter byte, then the pixels. */
  function Raw(rgb: Bytes, w: nat, h: nat): Bytes
    requires |rgb| >= 3 * w * h
    decreases h
  {
    if h == 0 then []
    else
      Area(w, h - 1);
      Raw(rgb, w, h - 1) + [0] + rgb[3 * w * (h - 1)..3 * w * h]
  }

  /** h scanlines of filter type 0, and nothing else. */
  function Unfilter(raw: Bytes, w: nat, h: nat): Option<Bytes>
    decreases h
  {
    if h == 0 then (if raw == [] then Some([]) else None)
    else if |raw| < 1 + 3 * w || raw[|raw| - 1 - 3 * w] != 0 then None
    else
      match Unfilter(raw[..|raw| - 1 - 3 * w], w, h - 1)
      case None => None
      case Some(rgb) => Some(rgb + raw[|raw| - 3 * w..])
  }

  lemma UnfilterLine(a: Bytes, line: Bytes, w: nat, h: nat)
    requires |line| == 3 * w && h > 0
    ensures Unfilter(a + [0] + line, w, h) ==
      match Unfilter(a, w, h - 1) case None => None case Some(rgb) => Some(rgb + line)
  {
    var raw := a + [0] + line;
    assert raw[..|raw| - 1 - 3 * w] == a && raw[|raw| - 3 * w..] == line;
  }

  lemma {:induction false} RawRoundTrip(rgb: Bytes, w: nat, h: nat)
    requires |rgb| >= 3 * w * h
    ensures Unfilter(Raw(rgb, w, h), w, h) == Some(rgb[..3 * w * h])
    decreases h
  {
    hide Unfilter;
    if h > 0 {
      Area(w, h - 1);
      RawRoundTrip(rgb, w, h - 1);
      var k, n := 3 * w * (h - 1), 3 * w * h;
      UnfilterLine(Raw(rgb, w, h - 1), rgb[k..n], w, h);
      assert rgb[..k] + rgb[k..n] == rgb[..n];
    } else {
      UnfilterNothing(w);
    }
  }

  lemma UnfilterNothing(w: nat)
    ensures Unfilter([], w, 0) == Some([])
  {
  }

  lemma RawNothing(rgb: Bytes, w: nat)
    ensures Raw(rgb, w, 0) == []
  {
  }

  lemma LineArea(a: nat, h: nat)
    ensures a * (h + 1) == a * h + a
  {
  }

  lemma {:induction false} RawSize(rgb: Bytes, w: nat, h: nat)
    requires |rgb| >= 3 * w * h
    ensures |Raw(rgb, w, h)| == (1 + 3 * w) * h
    decreases h
  {
    hide Raw;
    if h == 0 {
      RawNothing(rgb, w);
    } else {
      Area(w, h - 1);
      RawSize(rgb, w, h - 1);
      RawLine(rgb, w, h - 1);
      LineArea(1 + 3 * w, h - 1);
    }
  }

  // ---------------------------------------------------------------------- chunks

  const SIGNATURE: Bytes := [0x89, 0x50, 0x4E, 0x47, 0x0D, 0x0A, 0x1A, 0x0A]
  const IHDR: Bytes := [0x49, 0x48, 0x44, 0x52]
  const IDAT: Bytes := [0x49, 0x44, 0x41, 0x54]
  const IEND: Bytes := [0x49, 0x45, 0x4E, 0x44]

  function Chunk(kind: Bytes, data: Bytes): Bytes { Be32(|data|) + kind + data + Be32(Crc(kind + data)) }

  /** The first chunk: its type, its data, and what follows; None unless its check value is right. */
  function ReadChunk(s: Bytes): Option<(Bytes, Bytes, Bytes)> {
    if |s| < 12 then None
    else
      var n := ReadBe32(s);
      if |s| < 12 + n || ReadBe32(s[8 + n..]) != Crc(s[4..8 + n]) then None
      else Some((s[4..8], s[8..8 + n], s[12 + n..]))
  }

  lemma ChunkRoundTrip(kind: Bytes, data: Bytes, t: Bytes)
    requires |kind| == 4 && |data| < 0x1_0000_0000
    ensures ReadChunk(Chunk(kind, data) + t) == Some((kind, data, t))
  {
    hide Crc, Be32, ReadBe32;
    var s, n := Chunk(kind, data) + t, |data|;
    Be32RoundTrip(n);
    Be32RoundTrip(Crc(kind + data));
    ReadPrefix(s, Be32(n));
    assert s[4..8] == kind && s[8..8 + n] == data && s[4..8 + n] == kind + data;
    ReadPrefix(s[8 + n..], Be32(Crc(kind + data)));
    assert s[12 + n..] == t;
  }

  lemma ReadPrefix(s: Bytes, p: Bytes)
    requires |p| == 4 && |s| >= 4 && s[..4] == p
    ensures ReadBe32(s) == ReadBe32(p)
  {
    assert forall i :: 0 <= i < 4 ==> s[i] == s[..4][i];
  }

  datatype Image = Image(w: nat, h: nat, rgb: Bytes)

  function Header(w: nat, h: nat): Bytes { Be32(w) + Be32(h) + [8, 2, 0, 0, 0] }

  /** The whole file: signature, header, image data, end. */
  function Png(im: Image): Bytes
    requires |im.rgb| >= 3 * im.w * im.h
  {
    SIGNATURE + (Chunk(IHDR, Header(im.w, im.h)) + (Chunk(IDAT, Zlib(Raw(im.rgb, im.w, im.h))) + Chunk(IEND, [])))
  }

  function ReadHeader(d: Bytes): Option<(nat, nat)> {
    if |d| == 13 && d[8..] == [8, 2, 0, 0, 0] && ReadBe32(d) > 0 && ReadBe32(d[4..]) > 0
    then Some((ReadBe32(d), ReadBe32(d[4..]))) else None
  }

  /** A file with one image data chunk, 8-bit RGB, not interlaced. */
  function ReadPng(s: Bytes): Option<Image> {
    if |s| < 8 || s[..8] != SIGNATURE then None
    else
      match ReadChunk(s[8..])
      case None => None
      case Some((k1, d1, t1)) =>
        match ReadChunk(t1)
        case None => None
        case Some((k2, d2, t2)) =>
          if k1 != IHDR || k2 != IDAT || ReadHeader(d1).None? || ReadChunk(t2) != Some((IEND, [], [])) then None
          else ReadImage(ReadHeader(d1).value.0, ReadHeader(d1).value.1, d2)
  }

  function ReadImage(w: nat, h: nat, d: Bytes): Option<Image> {
    match Unzlib(d)
    case None => None
    case Some(raw) =>
      match Unfilter(raw, w, h)
      case None => None
      case Some(rgb) => Some(Image(w, h, rgb))
  }

  /** A picture the file format can hold: its data chunk's length fits 32 bits. */
  predicate Fits(im: Image) {
    && 1 <= im.w < 0x8000_0000 && 1 <= im.h < 0x8000_0000 && |im.rgb| == 3 * im.w * im.h
    && ZlibSize((1 + 3 * im.w) * im.h) < 0x1_0000_0000
  }

  function ZlibSize(n: nat): nat { 2 + 5 * BlockCount(n) + n + 4 }

  lemma HeaderRoundTrip(w: nat, h: nat)
    requires 0 < w < 0x1_0000_0000 && 0 < h < 0x1_0000_0000
    ensures ReadHeader(Header(w, h)) == Some((w, h))
  {
    hide Be32, ReadBe32;
    var d := Header(w, h);
    Be32RoundTrip(w);
    Be32RoundTrip(h);
    ReadPrefix(d, Be32(w));
    ReadPrefix(d[4..], Be32(h));
    assert d[8..] == [8, 2, 0, 0, 0];
  }

  /** The pixels are recovered exactly from the file. */
  lemma PngRoundTrip(im: Image)
    requires Fits(im)
    ensures ReadPng(Png(im)) == Some(im)
  {
    hide Chunk, ReadChunk, Header, ReadHeader, Zlib, Unzlib, Raw, Unfilter;
    var raw := Raw(im.rgb, im.w, im.h);
    var d1, d2 := Header(im.w, im.h), Zlib(raw);
    HeaderSize(im.w, im.h);
    DataSize(im);
    var t2 := Chunk(IEND, []);
    var t1 := Chunk(IDAT, d2) + t2;
    assert Png(im)[..8] == SIGNATURE && Png(im)[8..] == Chunk(IHDR, d1) + t1;
    ChunkRoundTrip(IHDR, d1, t1);
    ChunkRoundTrip(IDAT, d2, t2);
    assert t2 + [] == t2;
    ChunkRoundTrip(IEND, [], []);
    HeaderRoundTrip(im.w, im.h);
    ZlibRoundTrip(raw);
    RawRoundTrip(im.rgb, im.w, im.h);
    assert im.rgb[..3 * im.w * im.h] == im.rgb;
  }

  lemma HeaderSize(w: nat, h: nat)
    ensures |Header(w, h)| == 13
  {
  }

  lemma DataSize(im: Image)
    requires Fits(im)
    ensures |Zlib(Raw(im.rgb, im.w, im.h))| == ZlibSize((1 + 3 * im.w) * im.h) < 0x1_0000_0000
  {
    hide Raw, Blocks;
    var raw := Raw(im.rgb, im.w, im.h);
    RawSize(im.rgb, im.w, im.h);
    assert (1 + 3 * im.w) * im.h > 0;
    BlocksSize(raw);
  }

  // ------------------------------------------------------------------ the writer

  method CopyTo(a: array<Byte>, at: nat, data: Bytes)
    requires at + |data| <= a.Length
    modifies a
    ensures a[..] == old(a[..at]) + data + old(a[at + |data|..])
    ensures a[..at + |data|] == old(a[..at]) + data
  {
    forall i | 0 <= i < |data| { a[at + i] := data[i]; }
  }

  /** Where scanline y starts, and its pixels. */
  function LineAt(w: nat, y: nat): nat { (1 + 3 * w) * y }
  function PixelsAt(w: nat, y: nat): nat { 3 * w * y }

  lemma LineFits(w: nat, h: nat, y: nat)
    requires y < h
    ensures LineAt(w, y) + 1 + 3 * w == LineAt(w, y + 1) <= LineAt(w, h)
    ensures PixelsAt(w, y) + 3 * w == PixelsAt(w, y + 1) <= PixelsAt(w, h)
  {
    Area(w, y);
    Product(w, y + 1, h);
  }

  lemma Product(w: nat, a: nat, b: nat)
    requires a <= b
    ensures (1 + 3 * w) * a <= (1 + 3 * w) * b && 3 * w * a <= 3 * w * b
  {
    assert (1 + 3 * w) * (b - a) >= 0 && 3 * w * (b - a) >= 0;
    assert (1 + 3 * w) * b == (1 + 3 * w) * a + (1 + 3 * w) * (b - a);
    assert 3 * w * b == 3 * w * a + 3 * w * (b - a);
  }

  method PutLine(raw: array<Byte>, at: nat, line: Bytes)
    requires at + 1 + |line| <= raw.Length
    modifies raw
    ensures raw[..at + 1 + |line|] == old(raw[..at]) + [0] + line
  {
    CopyTo(raw, at, [0]);
    CopyTo(raw, at + 1, line);
  }

  /** The first y scanlines are in place. */
  ghost predicate LinesDone(a: Bytes, rgb: Bytes, w: nat, y: nat) {
    LineAt(w, y) <= |a| && |rgb| >= 3 * w * y && a[..LineAt(w, y)] == Raw(rgb, w, y)
  }

  lemma LineDone(a: Bytes, b: Bytes, rgb: Bytes, w: nat, h: nat, y: nat)
    requires y < h && |rgb| == PixelsAt(w, h) && |a| == |b| == LineAt(w, h) && LinesDone(a, rgb, w, y)
    requires LineAt(w, y) + 1 + 3 * w <= |b| && PixelsAt(w, y) + 3 * w <= |rgb|
    requires b[..LineAt(w, y) + 1 + 3 * w] == a[..LineAt(w, y)] + [0] + rgb[PixelsAt(w, y)..PixelsAt(w, y) + 3 * w]
    ensures LinesDone(b, rgb, w, y + 1)
  {
    hide Raw;
    LineFits(w, h, y);
    RawLine(rgb, w, y);
  }

  method BuildRaw(rgb: Bytes, w: nat, h: nat) returns (raw: array<Byte>)
    requires |rgb| == 3 * w * h
    ensures fresh(raw) && raw[..] == Raw(rgb, w, h)
  {
    hide LineAt, LinesDone, Raw;
    RawSize(rgb, w, h);
    LineSizes(rgb, w, h);
    raw := new Byte[LineAt(w, h)];
    NoLines(raw[..], rgb, w);
    for y := 0 to h
      invariant LinesDone(raw[..], rgb, w, y)
    {
      LineFits(w, h, y);
      ghost var before := raw[..];
      PutLine(raw, LineAt(w, y), rgb[PixelsAt(w, y)..PixelsAt(w, y) + 3 * w]);
      LineDone(before, raw[..], rgb, w, h, y);
    }
    AllLines(raw[..], rgb, w, h);
  }

  lemma LineSizes(rgb: Bytes, w: nat, h: nat)
    requires |rgb| == 3 * w * h
    ensures |rgb| == PixelsAt(w, h)
  {
  }

  lemma NoLines(a: Bytes, rgb: Bytes, w: nat)
    ensures LinesDone(a, rgb, w, 0)
  {
  }

  lemma AllLines(a: Bytes, rgb: Bytes, w: nat, h: nat)
    requires LinesDone(a, rgb, w, h) && |a| == LineAt(w, h)
    ensures |rgb| >= 3 * w * h && a == Raw(rgb, w, h)
  {
    assert a[..|a|] == a;
  }

  lemma RawLine(rgb: Bytes, w: nat, y: nat)
    requires |rgb| >= 3 * w * (y + 1)
    ensures 3 * w * y + 3 * w == 3 * w * (y + 1)
    ensures Raw(rgb, w, y + 1) == Raw(rgb, w, y) + [0] + rgb[3 * w * y..3 * w * y + 3 * w]
  {
    Area(w, y);
  }

  method PutBlock(zlib: array<Byte>, zi: nat, last: bool, data: Bytes)
    requires |data| <= 65535 && zi + 5 + |data| <= zlib.Length
    modifies zlib
    ensures zlib[..zi + 5 + |data|] == old(zlib[..zi]) + Block(last, data)
  {
    var n := |data|;
    CopyTo(zlib, zi, [if last then 1 else 0, n % 256, n / 256, (65535 - n) % 256, (65535 - n) / 256]);
    CopyTo(zlib, zi + 5, data);
  }

  /** The blocks written so far, and those to come, are all of them. */
  ghost predicate BlocksDone(done: Bytes, raw: Bytes, pos: nat, blk: nat) {
    && pos <= |raw| && |done| == 5 * blk + pos && blk <= BlockCount(|raw|)
    && if blk < BlockCount(|raw|) then pos == 65535 * blk && done + Blocks(raw[pos..]) == Blocks(raw)
       else pos == |raw| && done == Blocks(raw)
  }

  lemma NextBlock(done: Bytes, raw: Bytes, pos: nat, blk: nat)
    requires BlocksDone(done, raw, pos, blk) && blk < BlockCount(|raw|)
    ensures var n := if |raw| - pos > 65535 then 65535 else |raw| - pos;
      BlocksDone(done + Block(blk == BlockCount(|raw|) - 1, raw[pos..pos + n]), raw, pos + n, blk + 1)
  {
    hide Blocks, Block;
    var last := blk == BlockCount(|raw|) - 1;
    var n := if |raw| - pos > 65535 then 65535 else |raw| - pos;
    BlockSplit(raw[pos..], last);
    BlockBytes(last, raw[pos..pos + n]);
    assert raw[pos..][..n] == raw[pos..pos + n] && raw[pos..][n..] == raw[pos + n..];
    var block := Block(last, raw[pos..pos + n]);
    if !last {
      assert done + (block + Blocks(raw[pos + n..])) == done + block + Blocks(raw[pos + n..]);
    } else {
      assert raw[pos..] == raw[pos..pos + n];
    }
  }

  lemma BlocksStart(raw: Bytes)
    requires raw != []
    ensures BlocksDone([], raw, 0, 0)
  {
    assert raw[0..] == raw && [] + Blocks(raw) == Blocks(raw);
  }

  /** All blocks after the two bytes of the header. */
  method PutBlocks(zlib: array<Byte>, raw: Bytes) returns (zi: nat)
    requires raw != [] && zlib.Length == ZlibSize(|raw|)
    modifies zlib
    ensures zi + 4 == zlib.Length && zlib[..zi] == old(zlib[..2]) + Blocks(raw)
  {
    hide Blocks, Block, BlocksDone;
    BlocksSize(raw);
    var n := BlockCount(|raw|);
    ghost var head := zlib[..2];
    var pos: nat := 0;
    zi := 2;
    ghost var done: Bytes := [];
    BlocksStart(raw);
    for blk := 0 to n
      invariant BlocksDone(done, raw, pos, blk) && pos <= |raw| && |done| == 5 * blk + pos
      invariant zi == 2 + |done| && zlib[..zi] == head + done
    {
      var avail := |raw| - pos;
      var blen := if avail > 65535 then 65535 else avail;
      var last := blk == n - 1;
      NextBlock(done, raw, pos, blk);
      BlockBytes(last, raw[pos..pos + blen]);
      PutBlock(zlib, zi, last, raw[pos..pos + blen]);
      assert head + done + Block(last, raw[pos..pos + blen]) == head + (done + Block(last, raw[pos..pos + blen]));
      zi, pos, done := zi + 5 + blen, pos + blen, done + Block(last, raw[pos..pos + blen]);
    }
    BlocksEnd(done, raw, pos, n);
  }

  /** Fills a buffer of exactly the computed size. */
  method BuildZlib(raw: Bytes) returns (zlib: array<Byte>)
    requires raw != []
    ensures fresh(zlib) && zlib.Length == ZlibSize(|raw|) && zlib[..] == Zlib(raw)
  {
    hide Blocks, Adler32, Be32;
    zlib := new Byte[2 + BlockCount(|raw|) * 5 + |raw| + 4];
    CopyTo(zlib, 0, [0x78, 0x01]);
    assert zlib[..2] == [0x78, 0x01];
    var zi := PutBlocks(zlib, raw);
    var sum := ComputeAdler(raw);
    CopyTo(zlib, zi, Be32(sum));
    zi := zi + 4;
    assert zi == zlib.Length && zlib[..zi] == zlib[..];
  }

  lemma BlocksEnd(done: Bytes, raw: Bytes, pos: nat, n: nat)
    requires BlocksDone(done, raw, pos, n) && n == BlockCount(|raw|)
    ensures done == Blocks(raw)
  {
  }

  lemma BlockSplit(rest: Bytes, last: bool)
    requires last <==> |rest| <= 65535
    ensures last ==> Blocks(rest) == Block(true, rest)
    ensures !last ==> Blocks(rest) == Block(false, rest[..65535]) + Blocks(rest[65535..])
  {
    hide Block;
  }

  lemma BlockBytes(last: bool, data: Bytes)
    requires |data| <= 65535
    ensures Block(last, data) ==
      [if last then 1 else 0, |data| % 256, |data| / 256, (65535 - |data|) % 256, (65535 - |data|) / 256] + data
  {
  }

  method WriteChunk(kind: Bytes, data: Bytes) returns (out: Bytes)
    requires |kind| == 4
    ensures out == Chunk(kind, data)
  {
    hide CrcOf, Be32, IsTable, Xor;
    var t := BuildTable();
    out := Be32(|data|) + kind;
    if |data| > 0 { out := out + data; }
    var c := CrcByTable(t[..], 0xFFFFFFFF, kind);
    c := CrcByTable(t[..], c, data);
    CrcAppend(0xFFFFFFFF, kind, data);
    out := out + Be32(Xor(c, 0xFFFFFFFF) as int);
  }

  /** Writes the picture as a file that reads back as the picture. */
  method WritePng(im: Image) returns (file: Bytes)
    requires Fits(im)
    ensures file == Png(im) && ReadPng(file) == Some(im)
  {
    hide Chunk, Header, Zlib, Raw, ReadPng;
    var header := WriteChunk(IHDR, Header(im.w, im.h));
    var raw := BuildRaw(im.rgb, im.w, im.h);
    RawSize(im.rgb, im.w, im.h);
    assert (1 + 3 * im.w) * im.h > 0;
    var zlib := BuildZlib(raw[..]);
    var data := WriteChunk(IDAT, zlib[..]);
    var end := WriteChunk(IEND, []);
    file := SIGNATURE + header + data + end;
    assert file == SIGNATURE + (header + (data + end));
    PngRoundTrip(im);
  }

  // ------------------------------------------------------------ the file byte by byte

  /** Every file starts with the signature, a header chunk of 13 bytes with the size, 8-bit RGB, and ends with an
      empty end chunk; between them is one chunk of zlib data. */
  lemma FileBytes(im: Image)
    requires |im.rgb| >= 3 * im.w * im.h
    ensures var s := Png(im); var n := |s|;
      && n >= 45 && s[..8] == [137, 'P' as int, 'N' as int, 'G' as int, 13, 10, 26, 10]
      && s[8..16] == [0, 0, 0, 13, 'I' as int, 'H' as int, 'D' as int, 'R' as int]
      && s[16..29] == Be32(im.w) + Be32(im.h) + [8, 2, 0, 0, 0]
      && s[37..43] == ['I' as int, 'D' as int, 'A' as int, 'T' as int, 0x78, 0x01]
      && s[n - 12..] == [0, 0, 0, 0, 'I' as int, 'E' as int, 'N' as int, 'D' as int, 0xAE, 0x42, 0x60, 0x82]
  {
    hide Crc, Adler32, Blocks, Raw, Be32;
    EndChunk();
    var d := Zlib(Raw(im.rgb, im.w, im.h));
    Sizes(13);
    var head, body, tail := Chunk(IHDR, Header(im.w, im.h)), Chunk(IDAT, d), Chunk(IEND, []);
    var s := Png(im);
    assert s == SIGNATURE + head + body + tail;
    FourParts(SIGNATURE, head, body, tail);
    assert head[..8] == Be32(13) + IHDR && head[8..21] == Header(im.w, im.h);
    assert body[4..10] == IDAT + [0x78, 0x01];
  }

  lemma FourParts(a: Bytes, head: Bytes, body: Bytes, tail: Bytes)
    requires |a| == 8 && |head| == 25 && |body| >= 10 && |tail| == 12
    ensures var s := a + head + body + tail;
      && s[..8] == a && s[8..16] == head[..8] && s[16..29] == head[8..21] && s[37..43] == body[4..10] && s[|s| - 12..] == tail
  {
  }

  lemma Sizes(n: nat)
    requires n < 256
    ensures Be32(n) == [0, 0, 0, n]
  {
  }

  lemma EndChunk()
    ensures Chunk(IEND, []) == [0, 0, 0, 0, 0x49, 0x45, 0x4E, 0x44, 0xAE, 0x42, 0x60, 0x82]
  {
    hide Crc, Be32;
    EndValue();
    assert IEND + [] == [0x49, 0x45, 0x4E, 0x44];
    Sizes(0);
    EndCheck();
  }

  lemma EndCheck()
    ensures Be32(0xAE426082) == [0xAE, 0x42, 0x60, 0x82]
  {
    assert 0xAE426082 / 0x100_0000 == 0xAE && 0xAE426082 / 0x1_0000 == 0xAE42 && 0xAE426082 / 256 == 0xAE4260;
    assert 0xAE % 256 == 0xAE && 0xAE42 % 256 == 0x42 && 0xAE4260 % 256 == 0x60 && 0xAE426082 % 256 == 0x82;
  }

  /** A known value, that of "abc"; and both halves stay below the largest 16-bit prime. */
  lemma AdlerKnown(s: Bytes)
    ensures Adler32([97, 98, 99]) == 0x024D0127
    ensures Adler32(s) / 65536 == SumOfSums(s) % 65521 && Adler32(s) % 65536 == (1 + Sum(s)) % 65521
  {
    hide Sum, SumOfSums;
    OneMore([], 97);
    OneMore([97], 98);
    OneMore([97, 98], 99);
    NoSums();
    assert [] + [97] == [97] && [97] + [98] == [97, 98] && [97, 98] + [99] == [97, 98, 99];
  }

  lemma NoSums()
    ensures Sum([]) == 0 && SumOfSums([]) == 0
  {
  }

  lemma OneMore(s: Bytes, b: Byte)
    ensures Sum(s + [b]) == Sum(s) + b && SumOfSums(s + [b]) == SumOfSums(s) + 1 + Sum(s) + b
  {
    assert (s + [b])[..|s|] == s;
  }
}
