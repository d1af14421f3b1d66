/** Streaming SHA-256 (core/src/sha256.c) against FIPS 180-4. */
module Sha256 {
  import opened Runs
  import opened Arithmetic

  type Byte = bv8
  type Word = bv32

  // ------------------------------------------------- FIPS 180-4, sections 4 and 6.2

  function RotR(x: Word, n: Word): Word
    requires n <= 32
  {
    (x >> n) | (x << (32 - n))
  }

  function Shr(x: Word, n: Word): Word
    requires n <= 32
  {
    x >> n
  }

  function Ch(x: Word, y: Word, z: Word): Word { (x & y) ^ (!x & z) }
  function Maj(x: Word, y: Word, z: Word): Word { (x & y) ^ (x & z) ^ (y & z) }
  function Xor3(x: Word, y: Word, z: Word): Word { x ^ y ^ z }
  function Sum0(x: Word): Word { Xor3(RotR(x, 2), RotR(x, 13), RotR(x, 22)) }
  function Sum1(x: Word): Word { Xor3(RotR(x, 6), RotR(x, 11), RotR(x, 25)) }
  function Sigma0(x: Word): Word { Xor3(RotR(x, 7), RotR(x, 18), Shr(x, 3)) }
  function Sigma1(x: Word): Word { Xor3(RotR(x, 17), RotR(x, 19), Shr(x, 10)) }

  /** The constant of round t. */
  function K(t: nat): Word {
    match t / 16
    case 0 => (match t
      case 0 => 0x428a2f98 case 1 => 0x71374491 case 2 => 0xb5c0fbcf case 3 => 0xe9b5dba5
      case 4 => 0x3956c25b case 5 => 0x59f111f1 case 6 => 0x923f82a4 case 7 => 0xab1c5ed5
      case 8 => 0xd807aa98 case 9 => 0x12835b01 case 10 => 0x243185be case 11 => 0x550c7dc3
      case 12 => 0x72be5d74 case 13 => 0x80deb1fe case 14 => 0x9bdc06a7 case _ => 0xc19bf174)
    case 1 => (match t
      case 16 => 0xe49b69c1 case 17 => 0xefbe4786 case 18 => 0x0fc19dc6 case 19 => 0x240ca1cc
      case 20 => 0x2de92c6f case 21 => 0x4a7484aa case 22 => 0x5cb0a9dc case 23 => 0x76f988da
      case 24 => 0x983e5152 case 25 => 0xa831c66d case 26 => 0xb00327c8 case 27 => 0xbf597fc7
      case 28 => 0xc6e00bf3 case 29 => 0xd5a79147 case 30 => 0x06ca6351 case _ => 0x14292967)
    case 2 => (match t
      case 32 => 0x27b70a85 case 33 => 0x2e1b2138 case 34 => 0x4d2c6dfc case 35 => 0x53380d13
      case 36 => 0x650a7354 case 37 => 0x766a0abb case 38 => 0x81c2c92e case 39 => 0x92722c85
      case 40 => 0xa2bfe8a1 case 41 => 0xa81a664b case 42 => 0xc24b8b70 case 43 => 0xc76c51a3
      case 44 => 0xd192e819 case 45 => 0xd6990624 case 46 => 0xf40e3585 case _ => 0x106aa070)
    case _ => (match t
      case 48 => 0x19a4c116 case 49 => 0x1e376c08 case 50 => 0x2748774c case 51 => 0x34b0bcb5
      case 52 => 0x391c0cb3 case 53 => 0x4ed8aa4a case 54 => 0x5b9cca4f case 55 => 0x682e6ff3
      case 56 => 0x748f82ee case 57 => 0x78a5636f case 58 => 0x84c87814 case 59 => 0x8cc70208
      case 60 => 0x90befffa case 61 => 0xa4506ceb case 62 => 0xbef9a3f7 case _ => 0xc67178f2)
  }

  /** The i-th big-endian word of a block. */
  function BlockWord(b: seq<Byte>, i: nat): Word
    requires 4 * i + 3 < |b|
  {
    ((b[4 * i] as Word) << 24) | ((b[4 * i + 1] as Word) << 16) | ((b[4 * i + 2] as Word) << 8) | (b[4 * i + 3] as Word)
  }

  /** The message schedule. */
  function Schedule(b: seq<Byte>, t: nat): Word
    requires |b| == 64 && t < 64
  {
    if t < 16 then BlockWord(b, t)
    else NextWord(Schedule(b, t - 2), Schedule(b, t - 7), Schedule(b, t - 15), Schedule(b, t - 16))
  }

  function NextWord(a: Word, b: Word, c: Word, d: Word): Word { Add(Add(Add(Sigma1(a), b), Sigma0(c)), d) }

  /** Addition modulo 2^32. */
  function Add(x: Word, y: Word): Word { x + y }

  datatype Regs = Regs(a: Word, b: Word, c: Word, d: Word, e: Word, f: Word, g: Word, h: Word)

  function Temp1(r: Regs, k: Word, w: Word): Word { Add(Add(Add(Add(r.h, Sum1(r.e)), Ch(r.e, r.f, r.g)), k), w) }
  function Temp2(r: Regs): Word { Add(Sum0(r.a), Maj(r.a, r.b, r.c)) }

  function Round(r: Regs, k: Word, w: Word): Regs {
    Regs(Add(Temp1(r, k, w), Temp2(r)), r.a, r.b, r.c, Add(r.d, Temp1(r, k, w)), r.e, r.f, r.g)
  }

  /** The first n rounds. */
  function Rounds(r: Regs, b: seq<Byte>, n: nat): Regs
    requires |b| == 64 && n <= 64
  {
    if n == 0 then r else Round(Rounds(r, b, n - 1), K(n - 1), Schedule(b, n - 1))
  }

  function RegsOf(s: seq<Word>): Regs
    requires |s| == 8
  {
    Regs(s[0], s[1], s[2], s[3], s[4], s[5], s[6], s[7])
  }

  function AddRegs(s: seq<Word>, r: Regs): (t: seq<Word>)
    requires |s| == 8
    ensures |t| == 8
  {
    [Add(s[0], r.a), Add(s[1], r.b), Add(s[2], r.c), Add(s[3], r.d),
     Add(s[4], r.e), Add(s[5], r.f), Add(s[6], r.g), Add(s[7], r.h)]
  }

  /** One block's compression. */
  function Compress(s: seq<Word>, b: seq<Byte>): (t: seq<Word>)
    requires |s| == 8 && |b| == 64
    ensures |t| == 8
  {
    AddRegs(s, Rounds(RegsOf(s), b, 64))
  }

  const IV: seq<Word> := [0x6a09e667, 0xbb67ae85, 0x3c6ef372, 0xa54ff53a, 0x510e527f, 0x9b05688c, 0x1f83d9ab, 0x5be0cd19]

  /** All blocks of a padded message. */
  function Fold(s: seq<Word>, m: seq<Byte>): (t: seq<Word>)
    requires |s| == 8 && |m| % 64 == 0
    ensures |t| == 8
    decreases |m|
  {
    if m == [] then s else Fold(Compress(s, m[..64]), m[64..])
  }

  /** Section 5.1.1: a one bit, the fewest zero bits, and the length in bits as 64 bits. */
  function Pad(m: seq<Byte>): (p: seq<Byte>)
    ensures |p| % 64 == 0
  {
    m + [0x80] + Zeros(ZeroCount(|m|)) + LengthBytes(|m|)
  }

  function Zeros(n: nat): (z: seq<Byte>)
    ensures |z| == n
  {
    seq(n, _ => 0)
  }

  /** The least k with n + 1 + k congruent to 56 modulo 64. */
  function ZeroCount(n: nat): (k: nat)
    ensures (n + 1 + k) % 64 == 56 && k < 64
  {
    (55 - n) % 64
  }

  function Pow256(i: nat): (p: int)
    ensures p > 0
  {
    if i == 0 then 1 else 256 * Pow256(i - 1)
  }

  /** Byte i of a number of bits as a 64-bit word, most significant first. */
  function BitsByte(bits: nat, i: nat): Byte
    requires i < 8
  {
    (bits / Pow256(7 - i) % 256) as Byte
  }

  function LengthBytes(n: nat): (r: seq<Byte>)
    ensures |r| == 8
  {
    seq(8, i requires 0 <= i < 8 => BitsByte(8 * n, i))
  }

  function WordByte(w: Word, i: nat): Byte
    requires i < 4
  {
    ((w >> (24 - 8 * i)) & 0xFF) as Byte
  }

  function WordBytes(s: seq<Word>): (r: seq<Byte>)
    ensures |r| == 4 * |s|
  {
    seq(4 * |s|, i requires 0 <= i < 4 * |s| => WordByte(s[i / 4], i % 4))
  }

  /** Section 6.2: the hash of a message. */
  function Digest(m: seq<Byte>): (d: seq<Byte>)
    ensures |d| == 32
  {
    WordBytes(Fold(IV, Pad(m)))
  }

  // ---------------------------------------------------------------- streaming

  lemma {:induction false} FoldAppend(s: seq<Word>, a: seq<Byte>, b: seq<Byte>)
    requires |s| == 8 && |a| % 64 == 0 && |b| % 64 == 0
    ensures (|a| + |b|) % 64 == 0 && Fold(s, a + b) == Fold(Fold(s, a), b)
    decreases |a|
  {
    hide Compress;
    if a == [] {
      assert a + b == b;
    } else {
      assert (a + b)[..64] == a[..64] && (a + b)[64..] == a[64..] + b;
      FoldAppend(Compress(s, a[..64]), a[64..], b);
    }
  }

  lemma FoldOne(s: seq<Word>, b: seq<Byte>)
    requires |s| == 8 && |b| == 64
    ensures Fold(s, b) == Compress(s, b)
  {
    hide Compress;
    assert b[..64] == b && b[64..] == [];
    assert Fold(Compress(s, b), []) == Compress(s, b);
  }

  lemma ScheduleAt(b: seq<Byte>, t: nat)
    requires |b| == 64 && t < 64
    ensures t < 16 ==> Schedule(b, t) == BlockWord(b, t)
    ensures t >= 16 ==>
      Schedule(b, t) == NextWord(Schedule(b, t - 2), Schedule(b, t - 7), Schedule(b, t - 15), Schedule(b, t - 16))
  {
    hide BlockWord, NextWord;
  }

  /** The first n words of the schedule. */
  ghost predicate Scheduled(w: seq<Word>, b: seq<Byte>, n: nat) {
    |w| == |b| == 64 && n <= 64 && forall i :: 0 <= i < n ==> w[i] == Schedule(b, i)
  }

  method FillWords(w: array<Word>, b: seq<Byte>)
    requires w.Length == 64 && |b| == 64
    modifies w
    ensures Scheduled(w[..], b, 64)
  {
    hide BlockWord, NextWord, Schedule;
    for i := 0 to 16
      invariant Scheduled(w[..], b, i)
    {
      ScheduleAt(b, i);
      w[i] := BlockWord(b, i);
    }
    for i := 16 to 64
      invariant Scheduled(w[..], b, i)
    {
      ScheduleAt(b, i);
      w[i] := NextWord(w[i - 2], w[i - 7], w[i - 15], w[i - 16]);
    }
  }

  lemma RoundAt(r: Regs, b: seq<Byte>, n: nat)
    requires |b| == 64 && n < 64
    ensures Rounds(r, b, 0) == r && Rounds(r, b, n + 1) == Round(Rounds(r, b, n), K(n), Schedule(b, n))
  {
    hide Round, Schedule, K;
  }

  method RunRounds(r0: Regs, w: seq<Word>, block: seq<Byte>) returns (r: Regs)
    requires Scheduled(w, block, 64)
    ensures r == Rounds(r0, block, 64)
  {
    hide Temp1, Temp2, Schedule, Add, Rounds, K;
    RoundAt(r0, block, 0);
    var a, b, c, d, e, f, g, h := r0.a, r0.b, r0.c, r0.d, r0.e, r0.f, r0.g, r0.h;
    for i := 0 to 64
      invariant Regs(a, b, c, d, e, f, g, h) == Rounds(r0, block, i)
    {
      RoundAt(r0, block, i);
      var t1 := Temp1(Regs(a, b, c, d, e, f, g, h), K(i), w[i]);
      var t2 := Temp2(Regs(a, b, c, d, e, f, g, h));
      var top, mid := Add(t1, t2), Add(d, t1);
      h, g, f, e, d, c, b, a := g, f, e, mid, c, b, a, top;
    }
    r := Regs(a, b, c, d, e, f, g, h);
  }

  method Transform(s: array<Word>, block: seq<Byte>)
    requires s.Length == 8 && |block| == 64
    modifies s
    ensures s[..] == Compress(old(s[..]), block)
  {
    hide Rounds, Schedule, AddRegs;
    var w := new Word[64];
    FillWords(w, block);
    var r0 := Regs(s[0], s[1], s[2], s[3], s[4], s[5], s[6], s[7]);
    assert r0 == RegsOf(s[..]);
    var r := RunRounds(r0, w[..], block);
    AddInto(s, r);
  }

  method AddInto(s: array<Word>, r: Regs)
    requires s.Length == 8
    modifies s
    ensures s[..] == AddRegs(old(s[..]), r)
  {
    hide AddRegs;
    var t := AddRegs(s[..], r);
    for i := 0 to 8
      invariant forall j :: 0 <= j < 8 ==> s[j] == if j < i then t[j] else old(s[j])
    {
      s[i] := t[i];
    }
  }

  const COUNT_MOD: nat := 0x1_0000_0000_0000_0000

  /** The whole blocks of a message, and what is left over. */
  function Blocks(m: seq<Byte>): (r: seq<Byte>)
    ensures |r| % 64 == 0
  {
    m[..|m| - |m| % 64]
  }

  function Rest(m: seq<Byte>): (r: seq<Byte>)
    ensures |r| == |m| % 64
  {
    m[|m| - |m| % 64..]
  }

  class Context {
    const state: array<Word>
    var count: nat
    const buf: array<Byte>
    ghost var message: seq<Byte>

    /** The state has absorbed the whole blocks so far; the buffer holds the rest. */
    ghost predicate Valid()
      reads this, state, buf
    {
      && state.Length == 8 && buf.Length == 64
      && count == |message| % COUNT_MOD
      && state[..] == Fold(IV, Blocks(message))
      && buf[..|message| % 64] == Rest(message)
    }

    constructor ()
      ensures Valid() && message == [] && fresh(state) && fresh(buf)
    {
      state := new Word[8](i => if 0 <= i < 8 then IV[i] else 0);
      count := 0;
      buf := new Byte[64](_ => 0);
      message := [];
      new;
      assert state[..] == IV && Blocks([]) == [] && Fold(IV, []) == IV;
    }

    method Store(off: nat, data: seq<Byte>)
      requires off + |data| <= buf.Length
      modifies buf
      ensures buf[..] == old(buf[..off]) + data + old(buf[off + |data|..])
    {
      forall i | 0 <= i < |data| { buf[off + i] := data[i]; }
    }

    /** Whole blocks straight from the data, the rest into the buffer. */
    method Absorb(rest0: seq<Byte>, ghost done: seq<Byte>)
      requires state.Length == 8 && buf.Length == 64 && |done| % 64 == 0 && state[..] == Fold(IV, done)
      modifies state, buf
      ensures state[..] == Fold(IV, Blocks(done + rest0))
      ensures buf[..|done + rest0| % 64] == Rest(done + rest0)
    {
      hide Fold, Compress, Blocks, Rest;
      var rest := rest0;
      ghost var eaten := done;
      while |rest| >= 64
        invariant |eaten| % 64 == 0 && eaten + rest == done + rest0
        invariant state[..] == Fold(IV, eaten)
      {
        FoldAppend(IV, eaten, rest[..64]);
        FoldOne(Fold(IV, eaten), rest[..64]);
        Transform(state, rest[..64]);
        assert eaten + rest == eaten + rest[..64] + rest[64..];
        eaten, rest := eaten + rest[..64], rest[64..];
      }
      Store(0, rest);
      Remainder(eaten, rest);
    }

    method Update(data: seq<Byte>)
      requires Valid()
      modifies this`count, this`message, state, buf
      ensures Valid() && message == old(message) + data
    {
      hide Fold, Compress, Blocks, Rest;
      ghost var m := message;
      UsedBytes(|m|);
      CountWraps(|m|, |data|);
      var used := count % 64;
      count := (count + |data|) % COUNT_MOD;
      message := m + data;
      if used == 0 {
        WholeBlocks(m);
        Absorb(data, m);
      } else if |data| < 64 - used {
        Store(used, data);
        ShortTail(m, data);
        assert buf[..used + |data|] == Rest(m) + data;
      } else {
        var room := 64 - used;
        Store(used, data[..room]);
        assert buf[..] == Rest(m) + data[..room];
        FirstBlock(m, data, IV);
        Transform(state, buf[..]);
        assert m + data == m + data[..room] + data[room..];
        Absorb(data[room..], m + data[..room]);
      }
    }

    /** Pads and hashes what is left; the digest of the whole message. */
    method Final() returns (digest: seq<Byte>)
      requires Valid()
      modifies state, buf
      ensures digest == Digest(message)
    {
      hide Fold, Compress, Blocks, Rest, Pad, Zeros, LengthBytes, WordBytes;
      ghost var m := message;
      UsedBytes(|m|);
      TailBlocks(m, IV);
      var used := count % 64;
      Store(used, [0x80]);
      ghost var head := Rest(m) + [0x80];
      assert buf[..used + 1] == head;
      used := used + 1;
      if used > 56 {
        Store(used, Zeros(64 - used));
        assert buf[..] == FirstOfTwo(m);
        Transform(state, buf[..]);
        used, head := 0, [];
        assert [] + Zeros(56) + LengthBytes(|m|) == SecondOfTwo(m);
      }
      FinishBlock(used, head);
      digest := ReadState();
    }

    /** Zeros up to the length, the length, and the last compression. */
    method FinishBlock(used: nat, ghost head: seq<Byte>)
      requires state.Length == 8 && buf.Length == 64 && used <= 56 && buf[..used] == head
      requires count == |message| % COUNT_MOD
      modifies state, buf
      ensures |head + Zeros(56 - used) + LengthBytes(|message|)| == 64
      ensures state[..] == Compress(old(state[..]), head + Zeros(56 - used) + LengthBytes(|message|))
    {
      hide Compress, BitsByte;
      Store(used, Zeros(56 - used));
      assert buf[..56] == head + Zeros(56 - used);
      ghost var first := buf[..56];
      var bits := count * 8 % COUNT_MOD;
      for i := 0 to 8
        invariant state[..] == old(state[..]) && buf[..56] == first
        invariant forall j :: 0 <= j < i ==> buf[56 + j] == BitsByte(8 * |message|, j)
      {
        BitsWrap(|message|, i);
        buf[56 + i] := BitsByte(bits, i);
      }
      assert buf[56..] == LengthBytes(|message|);
      assert buf[..] == first + buf[56..];
      Transform(state, buf[..]);
    }

    method ReadState() returns (digest: seq<Byte>)
      requires state.Length == 8
      ensures digest == WordBytes(state[..])
    {
      hide WordByte;
      digest := [];
      for i := 0 to 8
        invariant digest == WordBytes(state[..i])
      {
        var w := state[i];
        digest := digest + [WordByte(w, 0), WordByte(w, 1), WordByte(w, 2), WordByte(w, 3)];
        MoreBytes(state[..i], w);
        assert state[..i + 1] == state[..i] + [w];
      }
      assert state[..8] == state[..];
    }
  }

  lemma MoreBytes(s: seq<Word>, w: Word)
    ensures WordBytes(s + [w]) == WordBytes(s) + [WordByte(w, 0), WordByte(w, 1), WordByte(w, 2), WordByte(w, 3)]
  {
    hide WordByte;
  }

  /** Hashing a stream of reads, as gemu_sha256_file does. */
  method HashReads(reads_: seq<seq<Byte>>) returns (digest: seq<Byte>)
    ensures digest == Digest(Joined(reads_))
  {
    hide Digest, Fold, Blocks, Rest;
    var ctx := new Context();
    for i := 0 to |reads_|
      invariant ctx.Valid() && ctx.message == Joined(reads_[..i]) && fresh(ctx.state) && fresh(ctx.buf)
    {
      assert reads_[..i + 1] == reads_[..i] + [reads_[i]];
      JoinedMore(reads_[..i], reads_[i]);
      ctx.Update(reads_[i]);
    }
    assert reads_[..|reads_|] == reads_;
    digest := ctx.Final();
  }

  // ------------------------------------------------------------------- finishing

  /** What padding adds after the whole blocks. */
  function Tail(m: seq<Byte>): seq<Byte> { Rest(m) + [0x80] + Zeros(ZeroCount(|m|)) + LengthBytes(|m|) }

  lemma PadSplits(m: seq<Byte>)
    ensures Pad(m) == Blocks(m) + Tail(m)
    ensures |Tail(m)| == if |m| % 64 < 56 then 64 else 128
    ensures ZeroCount(|m|) == if |m| % 64 < 56 then 55 - |m| % 64 else (63 - |m| % 64) + 56
  {
    hide Pow256, BitsByte;
    assert m == Blocks(m) + Rest(m);
    TailSize(|m|);
  }

  lemma TailSize(n: nat)
    ensures ZeroCount(n) == if n % 64 < 56 then 55 - n % 64 else (63 - n % 64) + 56
  {
  }

  /** The padding's blocks: one, or two when the length does not fit the first. */
  function LastBlock(m: seq<Byte>): (b: seq<Byte>)
    requires |m| % 64 < 56
    ensures |b| == 64
  {
    Rest(m) + [0x80] + Zeros(55 - |m| % 64) + LengthBytes(|m|)
  }

  function FirstOfTwo(m: seq<Byte>): (b: seq<Byte>)
    requires |m| % 64 >= 56
    ensures |b| == 64
  {
    Rest(m) + [0x80] + Zeros(63 - |m| % 64)
  }

  function SecondOfTwo(m: seq<Byte>): (b: seq<Byte>)
    ensures |b| == 64
  {
    Zeros(56) + LengthBytes(|m|)
  }

  lemma TailIs(m: seq<Byte>)
    ensures Tail(m) == if |m| % 64 < 56 then LastBlock(m) else FirstOfTwo(m) + SecondOfTwo(m)
  {
    hide LengthBytes, Rest;
    PadSplits(m);
    if |m| % 64 >= 56 { assert Zeros(ZeroCount(|m|)) == Zeros(63 - |m| % 64) + Zeros(56); }
  }

  lemma TailBlocks(m: seq<Byte>, s: seq<Word>)
    requires |s| == 8
    ensures Fold(s, Pad(m)) ==
      if |m| % 64 < 56 then Compress(Fold(s, Blocks(m)), LastBlock(m))
      else Compress(Compress(Fold(s, Blocks(m)), FirstOfTwo(m)), SecondOfTwo(m))
  {
    hide Compress, Fold, Blocks, Pad, Tail, LastBlock, FirstOfTwo, SecondOfTwo;
    PadSplits(m);
    TailIs(m);
    var h := Fold(s, Blocks(m));
    FoldAppend(s, Blocks(m), Tail(m));
    if |m| % 64 < 56 {
      FoldOne(h, LastBlock(m));
    } else {
      FoldAppend(h, FirstOfTwo(m), SecondOfTwo(m));
      FoldOne(h, FirstOfTwo(m));
      FoldOne(Compress(h, FirstOfTwo(m)), SecondOfTwo(m));
    }
  }

  lemma PowSplit(i: nat)
    requires i < 8
    ensures Pow256(7 - i) * Pow256(i + 1) == COUNT_MOD && Pow256(i + 1) == 256 * Pow256(i)
  {
    assert Pow256(0) == 1 && Pow256(1) == 0x100 && Pow256(2) == 0x1_0000 && Pow256(3) == 0x100_0000;
    assert Pow256(4) == 0x1_0000_0000 && Pow256(5) == 0x100_0000_0000 && Pow256(6) == 0x1_0000_0000_0000;
    assert Pow256(7) == 0x100_0000_0000_0000 && Pow256(8) == COUNT_MOD;
  }

  lemma DivShift(a: nat, p: nat, k: nat)
    requires p > 0
    ensures (a + p * k) / p == a / p + k
    decreases k
  {
    assert a + p * k == p * (a / p + k) + a % p;
    DivUnique(a + p * k, p, a / p + k, a % p);
  }

  /** Only the length modulo 2^64 shows. */
  lemma BitsWrap(n: nat, i: nat)
    requires i < 8
    ensures BitsByte(8 * (n % COUNT_MOD) % COUNT_MOD, i) == BitsByte(8 * n, i)
  {
    var k, c := n / COUNT_MOD, 8 * (n % COUNT_MOD);
    assert 8 * n == c + COUNT_MOD * (8 * k);
    WholeWraps(c, 8 * k, i);
    WholeWraps(c % COUNT_MOD, c / COUNT_MOD, i);
  }

  lemma WholeWraps(a: nat, k: nat, i: nat)
    requires i < 8
    ensures BitsByte(a + COUNT_MOD * k, i) == BitsByte(a, i)
  {
    hide Pow256;
    var p, q := Pow256(7 - i), Pow256(i);
    PowSplit(i);
    assert COUNT_MOD * k == p * (256 * q * k) by { Regroup(p, q, k); }
    DivShift(a, p, 256 * q * k);
    ModShift(a / p, q * k);
    assert 256 * q * k == 256 * (q * k);
  }

  lemma Regroup(p: nat, q: nat, k: nat)
    ensures p * (256 * q) * k == p * (256 * q * k)
  {
  }

  lemma ModShift(a: nat, k: nat)
    ensures (a + 256 * k) % 256 == a % 256
  {
  }

  lemma UsedBytes(n: nat)
    ensures n % COUNT_MOD % 64 == n % 64
  {
    assert n == n / COUNT_MOD * COUNT_MOD + n % COUNT_MOD;
  }

  lemma CountWraps(n: nat, k: nat)
    ensures (n % COUNT_MOD + k) % COUNT_MOD == (n + k) % COUNT_MOD
  {
  }

  lemma ShortTail(m: seq<Byte>, data: seq<Byte>)
    requires |m| % 64 + |data| < 64
    ensures Blocks(m + data) == Blocks(m) && Rest(m + data) == Rest(m) + data
    ensures |m + data| % 64 == |m| % 64 + |data|
  {
  }

  lemma WholeBlocks(m: seq<Byte>)
    requires |m| % 64 == 0
    ensures Blocks(m) == m
  {
  }

  /** Filling the buffer completes a block. */
  lemma FirstBlock(m: seq<Byte>, data: seq<Byte>, s: seq<Word>)
    requires |s| == 8 && |data| >= 64 - |m| % 64
    ensures var room := 64 - |m| % 64;
      && |Rest(m) + data[..room]| == 64 && |m + data[..room]| % 64 == 0
      && Fold(s, m + data[..room]) == Compress(Fold(s, Blocks(m)), Rest(m) + data[..room])
  {
    hide Compress;
    var room := 64 - |m| % 64;
    var b := Rest(m) + data[..room];
    assert m + data[..room] == Blocks(m) + b;
    FoldAppend(s, Blocks(m), b);
    FoldOne(Fold(s, Blocks(m)), b);
  }

  lemma Remainder(blocks: seq<Byte>, rest: seq<Byte>)
    requires |blocks| % 64 == 0 && |rest| < 64
    ensures Blocks(blocks + rest) == blocks && Rest(blocks + rest) == rest && |blocks + rest| % 64 == |rest|
  {
  }
}
