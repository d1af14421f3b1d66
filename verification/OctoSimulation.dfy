/** What an Octo program means, and that the assembled bytes, decoded and executed by the
    CHIP-8 core, do that step for step. */
module OctoSimulation {
  import opened Runs
  import opened Chip8
  import opened Octo

  // ------------------------------------------------------------ source meaning

  /** Control is at statement at; ret are the statements subroutines will return to. */
  datatype Src = Src(at: nat, ret: seq<nat>, d: Data)

  predicate CondHolds(c: Cond, d: Data) {
    match c
    case EqReg(x, y) => d.V[x] == d.V[y]
    case NeReg(x, y) => d.V[x] != d.V[y]
    case EqVal(x, v) => d.V[x] == v % 256
    case NeVal(x, v) => d.V[x] != v % 256
    case KeyDown(x) => d.keys[d.V[x] % 16]
    case KeyUp(x) => !d.keys[d.V[x] % 16]
  }

  /** The effect of a one-instruction statement. */
  function Effect(s: Stmt, d: Data): Data
    requires Plain(s) && (s.Bcd? ==> d.I + 2 < 4096)
  {
    var V := d.V;
    match s
    case Clear => d.(vram := seq(2048, i => false), draw := true)
    case Sprite(x, y, h) =>
      d.(vram := DrawVram(d, x, y, h % 16), draw := true,
         V := V[15 := if DrawCollides(d, x, y, h % 16) then 1 else 0])
    case IHex(x) => d.(I := FONT_BASE + V[x] % 16 * 5)
    case IAdd(x) => d.(I := (d.I + V[x]) % 4096)
    case DelaySet(x) => d.(delay := V[x])
    case BuzzerSet(x) => d.(sound := V[x])
    case Bcd(x) => d.(mem := StoreBcd(d.mem, d.I, V[x]))
    case Load(x) => d.(V := LoadRegs(d.mem, V, d.I, x))
    case Save(x) => d.(mem := StoreRegs(d.mem, V, d.I, x))
    case SetRandom(x, mask) =>
      var r := NextRng(d.rng);
      d.(rng := r, V := V[x := And8(RngByte(r), mask % 256)])
    case SetKey(x) => d.(waitKey := true, waitReg := x)
    case SetDelay(x) => d.(V := V[x := d.delay])
    case SetReg(x, y) => d.(V := V[x := V[y]])
    case SetVal(x, v) => d.(V := V[x := v % 256])
    case AddReg(x, y) => d.(V := SetWithFlag(V, x, (V[x] as int + V[y]) % 256, V[x] as int + V[y] > 255))
    case AddVal(x, v) => d.(V := V[x := (V[x] + v) % 256])
    case SubReg(x, y) => d.(V := SetWithFlag(V, x, (V[x] as int - V[y]) % 256, V[x] >= V[y]))
    case SubVal(x, v) => d.(V := V[x := (V[x] - v) % 256])
    case RevSub(x, y) => d.(V := SetWithFlag(V, x, (V[y] as int - V[x]) % 256, V[y] >= V[x]))
    case OrReg(x, y) => d.(V := V[x := Or8(V[x], V[y])])
    case AndReg(x, y) => d.(V := V[x := And8(V[x], V[y])])
    case XorReg(x, y) => d.(V := V[x := Xor8(V[x], V[y])])
  }

  /** Statements that are instructions rather than data or bare markers. */
  predicate IsCode(s: Stmt) { !s.DataByte? && !s.DataWord? }

  predicate SameRange(a: Memory, b: Memory, lo: int, hi: int) {
    forall i :: 0 <= i < 4096 && lo <= i < hi ==> a[i] == b[i]
  }

  /** No instruction of the program is overwritten with something else. */
  predicate CodeIntact(p: Program, a: Memory, b: Memory) {
    forall i :: 0 <= i < |p| && IsCode(p[i]) ==> SameRange(a, b, Addr(p, i), Addr(p, i) + Size(p[i]))
  }

  /** The statement that stands at an address. */
  function StmtAt(p: Program, addr: int, k: nat): (r: Option<nat>)
    requires k <= |p|
    ensures r.Some? ==> r.value < k && Addr(p, r.value) == addr
  {
    if k == 0 then None
    else if Addr(p, k - 1) == addr then Some(k - 1)
    else StmtAt(p, addr, k - 1)
  }

  /** Where a jump target leads, shifted by offset bytes. */
  function TargetStmt(p: Program, i: nat, offset: int): Option<nat>
    requires i < |p| && TakesAddr(p[i])
  {
    match TargetOf(p[i])
    case Num(a) => StmtAt(p, a % 4096 + offset, |p|)
    case Name(n) =>
      match LabelFor(p, i, n)
      case None => None
      case Some(j) => if offset == 0 then Some(j) else StmtAt(p, Addr(p, j) + offset, |p|)
  }

  /** One statement; None where the language gives no meaning: data reached as code, the call
      stack exhausted, code overwritten, a key awaited, or a jump to nowhere. */
  function SrcStep(p: Program, s: Src): Option<Src> {
    var i := s.at;
    if i >= |p| || s.d.waitKey then None
    else match p[i]
      case Label(_) => Some(s.(at := i + 1))
      case Loop => Some(s.(at := i + 1))
      case End => Some(s.(at := i + 1))
      case DataByte(_) => None
      case DataWord(_) => None
      case Again => (match FindLoop(p, i, 0) case None => None case Some(j) => Some(s.(at := j)))
      case IfThen(c) =>
        if CondHolds(c, s.d) then Some(s.(at := i + 1))
        else if i + 1 < |p| && Size(p[i + 1]) == 2 then Some(s.(at := i + 2)) else None
      case IfBegin(c) =>
        if CondHolds(c, s.d) then Some(s.(at := i + 1))
        else (match ScanIf(p, i, |p|) case Open(_) => None case Found(j) => Some(s.(at := j + 1)))
      case Else => (match ScanIf(p, i, |p|) case Open(_) => None case Found(j) => Some(s.(at := j + 1)))
      case Return =>
        if s.ret == [] then None
        else Some(Src(s.ret[|s.ret| - 1], s.ret[..|s.ret| - 1], s.d))
      case Call(_) =>
        if |s.ret| >= 16 then None
        else (match TargetStmt(p, i, 0)
              case None => None case Some(j) => Some(Src(j, s.ret + [i + 1], s.d)))
      case Jump(_) => (match TargetStmt(p, i, 0) case None => None case Some(j) => Some(s.(at := j)))
      case Jump0(_) => (match TargetStmt(p, i, s.d.V[0]) case None => None case Some(j) => Some(s.(at := j)))
      case ISet(_) => Some(Src(i + 1, s.ret, s.d.(I := RefAddr(p, i, true) % 4096)))
      case _ =>
        if p[i].Bcd? && s.d.I + 2 >= 4096 then None
        else
          var d := Effect(p[i], s.d);
          if !CodeIntact(p, s.d.mem, d.mem) then None
          else Some(Src(if p[i].SetKey? then i else i + 1, s.ret, d))
  }

  /** A key answers a pending vx := key. */
  function SrcKey(s: Src, key: Nibble): Src {
    Src(s.at + 1, s.ret, s.d.(V := s.d.V[s.d.waitReg := key], waitKey := false))
  }

  /** What the run loop does with a key press while one is awaited. */
  function MachineKey(m: Machine, key: Nibble): Machine {
    m.(d := m.d.(V := m.d.V[m.d.waitReg := key], waitKey := false), pc := (m.pc + 2) % 65536)
  }

  /** Instructions the machine executes for one statement. */
  function Cost(p: Program, s: Src): nat {
    if s.at >= |p| then 0
    else match p[s.at]
      case Label(_) => 0
      case Loop => 0
      case End => 0
      case IfBegin(c) => if CondHolds(c, s.d) then 1 else 2
      case _ => 1
  }

  // ---------------------------------------------------------------- simulation

  predicate LoadedAt(mem: Memory, a: int, b: seq<Byte>) {
    0 <= a && a + |b| <= 4096 && mem[a..a + |b|] == b
  }

  /** The instructions of p are in memory. */
  predicate CodeLoaded(p: Program, mem: Memory) {
    forall i :: 0 <= i < |p| && IsCode(p[i]) ==> LoadedAt(mem, Addr(p, i), Final(p, i))
  }

  /** The machine is where the source is, in the same state, with the code in place. */
  predicate Matches(p: Program, s: Src, m: Machine) {
    && s.at <= |p| && m.pc == Addr(p, s.at) && m.d == s.d
    && (s.d.waitKey ==> s.at < |p| && p[s.at].SetKey?)
    && m.sp == |s.ret| <= 16
    && (forall k :: 0 <= k < |s.ret| ==> s.ret[k] <= |p| && m.stack[k] == Addr(p, s.ret[k]))
    && CodeLoaded(p, m.d.mem)
  }

  /** The word at offset off of statement i's bytes is what the machine fetches there. */
  lemma FetchWord(p: Program, i: nat, off: nat, mem: Memory, op: Word)
    requires i < |p| && CodeLoaded(p, mem) && IsCode(p[i]) && off + 2 <= Size(p[i])
    requires Final(p, i)[off..off + 2] == Bytes2(op)
    ensures Addr(p, i) + off + 1 < 4096 && FetchAt(mem, Addr(p, i) + off) == op
  {
    hide Encode, Addr, Size, Final;
    var a, b := Addr(p, i), Final(p, i);
    assert LoadedAt(mem, a, b);
    assert mem[a + off] == mem[a..a + |b|][off] == b[off] == b[off..off + 2][0];
    assert mem[a + off + 1] == mem[a..a + |b|][off + 1] == b[off + 1] == b[off..off + 2][1];
  }

  // ------------------------------------------------- decoding what was encoded

  lemma DecodeXY(hi: Nibble, x: Nibble, y: Nibble, n: Nibble)
    ensures var op: int := OpXY(hi, x, y, n);
      op / 4096 == hi && op / 256 % 16 == x && op / 16 % 16 == y && op % 16 == n && op % 256 == y * 16 + n
  {
    var op: int := OpXY(hi, x, y, n);
    assert op / 16 == hi * 256 + x * 16 + y;
    assert op / 256 == hi * 16 + x;
  }

  lemma DecodeXKk(hi: Nibble, x: Nibble, kk: int)
    ensures var op: int := OpXKk(hi, x, kk);
      op / 4096 == hi && op / 256 % 16 == x && op % 256 == kk % 256
  {
    var op: int := OpXKk(hi, x, kk);
    assert op / 256 == hi * 16 + x;
  }

  lemma DecodeAddr(hi: Nibble, a: int)
    ensures var op: int := AddrOp(hi, a); op / 4096 == hi && op % 4096 == a % 4096
  {
  }

  // ------------------------------------------------------ statement by statement

  /** The instruction a plain statement is meant to become. */
  function KindFor(s: Stmt): Kind
    requires Plain(s)
  {
    match s
    case Clear => Cls
    case Sprite(_, _, _) => DrwVxVyN
    case IHex(_) => LdFVx
    case IAdd(_) => AddIVx
    case DelaySet(_) => LdDtVx
    case BuzzerSet(_) => LdStVx
    case Bcd(_) => LdBVx
    case Load(_) => LdVxI
    case Save(_) => LdIVx
    case SetRandom(_, _) => RndVxKk
    case SetKey(_) => LdVxK
    case SetDelay(_) => LdVxDt
    case SetReg(_, _) => LdVxVy
    case SetVal(_, _) => LdVxKk
    case AddReg(_, _) => AddVxVy
    case AddVal(_, _) => AddVxKk
    case SubReg(_, _) => SubVxVy
    case SubVal(_, _) => AddVxKk
    case RevSub(_, _) => SubnVxVy
    case OrReg(_, _) => OrVxVy
    case AndReg(_, _) => AndVxVy
    case XorReg(_, _) => XorVxVy
  }

  predicate TwoRegisters(s: Stmt) {
    s.SetReg? || s.AddReg? || s.SubReg? || s.RevSub? || s.OrReg? || s.AndReg? || s.XorReg? || s.Sprite?
  }

  lemma DecodeXYInsn(hi: Nibble, x: Nibble, y: Nibble, n: Nibble)
    requires hi == 8 || hi == 13
    ensures var ins := Decode(OpXY(hi, x, y, n));
      && ins.x == x && ins.y == y && ins.n == n
      && (hi == 13 ==> ins.kind == DrwVxVyN)
      && (hi == 8 ==>
           && (n == 0 ==> ins.kind == LdVxVy) && (n == 1 ==> ins.kind == OrVxVy)
           && (n == 2 ==> ins.kind == AndVxVy) && (n == 3 ==> ins.kind == XorVxVy)
           && (n == 4 ==> ins.kind == AddVxVy) && (n == 5 ==> ins.kind == SubVxVy)
           && (n == 7 ==> ins.kind == SubnVxVy))
  {
    hide OpXY;
    DecodeXY(hi, x, y, n);
  }

  lemma DecodeXKkInsn(hi: Nibble, x: Nibble, v: int)
    requires hi == 6 || hi == 7 || hi == 12 || hi == 15
    ensures var ins := Decode(OpXKk(hi, x, v)); var kk := v % 256;
      && ins.x == x && ins.kk == kk
      && (hi == 6 ==> ins.kind == LdVxKk) && (hi == 7 ==> ins.kind == AddVxKk) && (hi == 12 ==> ins.kind == RndVxKk)
      && (hi == 15 ==>
           && (kk == 0x07 ==> ins.kind == LdVxDt) && (kk == 0x0A ==> ins.kind == LdVxK)
           && (kk == 0x15 ==> ins.kind == LdDtVx) && (kk == 0x18 ==> ins.kind == LdStVx)
           && (kk == 0x1E ==> ins.kind == AddIVx) && (kk == 0x29 ==> ins.kind == LdFVx)
           && (kk == 0x33 ==> ins.kind == LdBVx) && (kk == 0x55 ==> ins.kind == LdIVx)
           && (kk == 0x65 ==> ins.kind == LdVxI))
  {
    hide OpXKk;
    DecodeXKk(hi, x, v);
  }

  lemma PlainDecodes(s: Stmt)
    requires Plain(s)
    ensures var ins := Decode(PlainWord(s));
      && ins.kind == KindFor(s)
      && (!s.Clear? ==> ins.x == s.x)
      && (TwoRegisters(s) ==> ins.y == s.y)
      && (s.Sprite? ==> ins.n == s.h % 16)
      && (s.SetVal? || s.AddVal? ==> ins.kk == s.v % 256)
      && (s.SubVal? ==> ins.kk == (-s.v) % 256)
      && (s.SetRandom? ==> ins.kk == s.mask % 256)
  {
    if s.Clear? {
      assert Decode(0x00E0).kind == Cls;
    } else if TwoRegisters(s) {
      PlainDecodesXY(s);
    } else {
      PlainDecodesXKk(s);
    }
  }

  lemma PlainDecodesXY(s: Stmt)
    requires Plain(s) && TwoRegisters(s)
    ensures var ins := Decode(PlainWord(s));
      ins.kind == KindFor(s) && ins.x == s.x && ins.y == s.y && (s.Sprite? ==> ins.n == s.h % 16)
  {
    hide OpXY, KindOf, Decode;
    match s {
      case Sprite(x, y, h) => DecodeXYInsn(13, x, y, h % 16);
      case SetReg(x, y) => DecodeXYInsn(8, x, y, 0);
      case AddReg(x, y) => DecodeXYInsn(8, x, y, 4);
      case SubReg(x, y) => DecodeXYInsn(8, x, y, 5);
      case RevSub(x, y) => DecodeXYInsn(8, x, y, 7);
      case OrReg(x, y) => DecodeXYInsn(8, x, y, 1);
      case AndReg(x, y) => DecodeXYInsn(8, x, y, 2);
      case XorReg(x, y) => DecodeXYInsn(8, x, y, 3);
    }
  }

  lemma PlainDecodesXKk(s: Stmt)
    requires Plain(s) && !TwoRegisters(s) && !s.Clear?
    ensures var ins := Decode(PlainWord(s));
      && ins.kind == KindFor(s) && ins.x == s.x
      && (s.SetVal? || s.AddVal? ==> ins.kk == s.v % 256)
      && (s.SubVal? ==> ins.kk == (-s.v) % 256)
      && (s.SetRandom? ==> ins.kk == s.mask % 256)
  {
    hide OpXKk, KindOf, Decode;
    if s.SetRandom? {
      DecodeXKkInsn(12, s.x, s.mask);
    } else if s.SetVal? {
      DecodeXKkInsn(6, s.x, s.v);
    } else if s.AddVal? {
      DecodeXKkInsn(7, s.x, s.v);
    } else if s.SubVal? {
      DecodeXKkInsn(7, s.x, -s.v);
    } else {
      PlainDecodesF(s);
    }
  }

  lemma PlainDecodesF(s: Stmt)
    requires Plain(s) && !TwoRegisters(s) && !s.Clear?
    requires !s.SetRandom? && !s.SetVal? && !s.AddVal? && !s.SubVal?
    ensures Decode(PlainWord(s)).kind == KindFor(s) && Decode(PlainWord(s)).x == s.x
  {
    hide OpXKk, KindOf, Decode, KindFor, PlainWord;
    if s.IHex? || s.IAdd? || s.Bcd? || s.Load? || s.Save? { PlainDecodesIndex(s); } else { PlainDecodesTimer(s); }
  }

  lemma PlainDecodesIndex(s: Stmt)
    requires s.IHex? || s.IAdd? || s.Bcd? || s.Load? || s.Save?
    ensures Decode(PlainWord(s)).kind == KindFor(s) && Decode(PlainWord(s)).x == s.x
  {
    hide OpXKk, KindOf, Decode;
    match s {
      case IHex(x) => DecodeXKkInsn(15, x, 0x29);
      case IAdd(x) => DecodeXKkInsn(15, x, 0x1E);
      case Bcd(x) => DecodeXKkInsn(15, x, 0x33);
      case Load(x) => DecodeXKkInsn(15, x, 0x65);
      case Save(x) => DecodeXKkInsn(15, x, 0x55);
    }
  }

  lemma PlainDecodesTimer(s: Stmt)
    requires s.DelaySet? || s.BuzzerSet? || s.SetKey? || s.SetDelay?
    ensures Decode(PlainWord(s)).kind == KindFor(s) && Decode(PlainWord(s)).x == s.x
  {
    hide OpXKk, KindOf, Decode;
    match s {
      case DelaySet(x) => DecodeXKkInsn(15, x, 0x15);
      case BuzzerSet(x) => DecodeXKkInsn(15, x, 0x18);
      case SetKey(x) => DecodeXKkInsn(15, x, 0x0A);
      case SetDelay(x) => DecodeXKkInsn(15, x, 0x07);
    }
  }

  /** A plain statement's word, decoded and executed, has the statement's effect. */
  lemma PlainCorrect(s: Stmt, d: Data)
    requires Plain(s) && (s.Bcd? ==> d.I + 2 < 4096)
    ensures var ins := Decode(PlainWord(s));
      && ins.kind == KindFor(s)
      && (ins.kind.LdBVx? ==> d.I + 2 < 4096)
      && ExecData(ins, d) == Effect(s, d)
  {
    hide Decode, PlainWord, SetWithFlag, DrawVram, DrawCollides, StoreRegs, LoadRegs, StoreBcd,
         Or8, And8, Xor8, NextRng, RngByte;
    PlainDecodes(s);
    var ins := Decode(PlainWord(s));
    if TwoRegisters(s) {
      TwoRegistersCorrect(s, d, ins);
    } else {
      OthersCorrect(s, d, ins);
    }
  }

  lemma TwoRegistersCorrect(s: Stmt, d: Data, ins: Insn)
    requires Plain(s) && TwoRegisters(s) && ins.kind == KindFor(s) && ins.x == s.x && ins.y == s.y
    requires s.Sprite? ==> ins.n == s.h % 16
    ensures ExecData(ins, d) == Effect(s, d)
  {
    hide SetWithFlag, DrawVram, DrawCollides, Or8, And8, Xor8, StoreRegs, LoadRegs, StoreBcd, NextRng, RngByte;
    if !s.Sprite? { RegisterPairCorrect(s, d, ins); }
  }

  lemma RegisterPairCorrect(s: Stmt, d: Data, ins: Insn)
    requires Plain(s) && TwoRegisters(s) && !s.Sprite? && ins.kind == KindFor(s) && ins.x == s.x && ins.y == s.y
    ensures ExecData(ins, d) == Effect(s, d)
  {
    hide SetWithFlag, DrawVram, DrawCollides, Or8, And8, Xor8, StoreRegs, LoadRegs, StoreBcd, NextRng, RngByte,
         AluValue, AluFlag, MemoryData, OtherData, AluRegs;
    PairValue(s, ins, d.V);
    EffectOfPair(s, d);
  }

  /** The registers after a two-register statement. */
  function PairRegs(s: Stmt, V: Regs): Regs
    requires TwoRegisters(s) && !s.Sprite?
  {
    var x, a, b := s.x, V[s.x] as int, V[s.y] as int;
    match s
    case SetReg(_, _) => V[x := V[s.y]]
    case AddReg(_, _) => SetWithFlag(V, x, (a + b) % 256, a + b > 255)
    case SubReg(_, _) => SetWithFlag(V, x, (a - b) % 256, a >= b)
    case RevSub(_, _) => SetWithFlag(V, x, (b - a) % 256, b >= a)
    case OrReg(_, _) => V[x := Or8(V[x], V[s.y])]
    case AndReg(_, _) => V[x := And8(V[x], V[s.y])]
    case XorReg(_, _) => V[x := Xor8(V[x], V[s.y])]
  }

  lemma EffectOfPair(s: Stmt, d: Data)
    requires Plain(s) && TwoRegisters(s) && !s.Sprite?
    ensures Effect(s, d) == d.(V := PairRegs(s, d.V))
  {
    hide SetWithFlag, DrawVram, DrawCollides, Or8, And8, Xor8, StoreRegs, LoadRegs, StoreBcd, NextRng, RngByte;
  }

  lemma PairValue(s: Stmt, ins: Insn, V: Regs)
    requires Plain(s) && TwoRegisters(s) && !s.Sprite? && ins.kind == KindFor(s) && ins.x == s.x && ins.y == s.y
    ensures AluRegs(ins, V) == PairRegs(s, V) && IsAlu(ins.kind)
  {
    hide SetWithFlag, Or8, And8, Xor8;
  }

  lemma OthersCorrect(s: Stmt, d: Data, ins: Insn)
    requires Plain(s) && !TwoRegisters(s) && ins.kind == KindFor(s) && (s.Bcd? ==> d.I + 2 < 4096)
    requires !s.Clear? ==> ins.x == s.x
    requires s.SetVal? || s.AddVal? ==> ins.kk == s.v % 256
    requires s.SubVal? ==> ins.kk == (-s.v) % 256
    requires s.SetRandom? ==> ins.kk == s.mask % 256
    ensures ExecData(ins, d) == Effect(s, d)
  {
    hide Effect, ExecData, KindFor;
    if s.SetVal? || s.AddVal? || s.SubVal? {
      ValueCorrect(s, d, ins);
    } else if s.Clear? || s.Bcd? || s.Load? || s.Save? {
      MemoryCorrect(s, d, ins);
    } else if s.SetRandom? {
      RandomKind(s);
      RandomCorrect(s, d, ins);
    } else if s.IHex? || s.IAdd? || s.SetKey? {
      IndexCorrect(s, d, ins);
    } else {
      TimerCorrect(s, d, ins);
    }
  }

  lemma ValueCorrect(s: Stmt, d: Data, ins: Insn)
    requires (s.SetVal? || s.AddVal? || s.SubVal?) && ins.kind == KindFor(s) && ins.x == s.x
    requires ins.kk == (if s.SubVal? then -s.v else s.v) % 256
    ensures ExecData(ins, d) == Effect(s, d)
  {
    hide MemoryData, OtherData, SetWithFlag, DrawVram, DrawCollides, Or8, And8, Xor8, StoreRegs, LoadRegs, StoreBcd, NextRng, RngByte;
    if !s.SetVal? { AddMod(d.V[s.x], if s.AddVal? then s.v else -s.v); }
  }

  lemma MemoryCorrect(s: Stmt, d: Data, ins: Insn)
    requires (s.Clear? || s.Bcd? || s.Load? || s.Save?) && ins.kind == KindFor(s) && (s.Bcd? ==> d.I + 2 < 4096)
    requires !s.Clear? ==> ins.x == s.x
    ensures ExecData(ins, d) == Effect(s, d)
  {
    hide AluRegs, OtherData, SetWithFlag, DrawVram, DrawCollides, Or8, And8, Xor8, StoreRegs, LoadRegs, StoreBcd, NextRng, RngByte,
         MemoryData;
    ClearOrStore(ins, d);
  }

  lemma ClearOrStore(ins: Insn, d: Data)
    requires ins.kind.LdBVx? ==> d.I + 2 < 4096
    ensures ins.kind.Cls? ==> MemoryData(ins, d) == d.(vram := seq(2048, i => false), draw := true)
    ensures ins.kind.LdBVx? ==> MemoryData(ins, d) == d.(mem := StoreBcd(d.mem, d.I, d.V[ins.x]))
    ensures ins.kind.LdIVx? ==> MemoryData(ins, d) == d.(mem := StoreRegs(d.mem, d.V, d.I, ins.x))
    ensures ins.kind.LdVxI? ==> MemoryData(ins, d) == d.(V := LoadRegs(d.mem, d.V, d.I, ins.x))
  {
    hide DrawVram, DrawCollides, StoreRegs, LoadRegs, StoreBcd;
  }

  lemma RandomKind(s: Stmt)
    requires s.SetRandom?
    ensures KindFor(s) == RndVxKk
  {
  }

  lemma RandomCorrect(s: Stmt, d: Data, ins: Insn)
    requires s.SetRandom? && ins.kind == RndVxKk && ins.x == s.x && ins.kk == s.mask % 256
    ensures ExecData(ins, d) == Effect(s, d)
  {
    hide AluRegs, MemoryData, SetWithFlag, DrawVram, DrawCollides, Or8, And8, Xor8, StoreRegs, LoadRegs, StoreBcd, NextRng, RngByte;
  }

  lemma IndexCorrect(s: Stmt, d: Data, ins: Insn)
    requires s.IHex? || s.IAdd? || s.SetKey?
    requires ins.kind == KindFor(s) && ins.x == s.x
    ensures ExecData(ins, d) == Effect(s, d)
  {
    hide ExecData, Effect;
    IndexExec(ins, d);
    IndexEffect(s, d);
  }

  function IndexData(k: Kind, x: Nibble, d: Data): Data {
    if k.LdFVx? then d.(I := FONT_BASE + d.V[x] % 16 * 5)
    else if k.AddIVx? then d.(I := (d.I + d.V[x]) % 4096)
    else d.(waitKey := true, waitReg := x)
  }

  lemma IndexExec(ins: Insn, d: Data)
    requires ins.kind.LdFVx? || ins.kind.AddIVx? || ins.kind.LdVxK?
    ensures ExecData(ins, d) == IndexData(ins.kind, ins.x, d)
  {
    hide AluRegs, MemoryData;
  }

  lemma IndexEffect(s: Stmt, d: Data)
    requires s.IHex? || s.IAdd? || s.SetKey?
    ensures Effect(s, d) == IndexData(KindFor(s), s.x, d)
  {
    hide SetWithFlag, DrawVram, DrawCollides, Or8, And8, Xor8, StoreRegs, LoadRegs, StoreBcd, NextRng, RngByte;
  }

  lemma TimerCorrect(s: Stmt, d: Data, ins: Insn)
    requires s.DelaySet? || s.BuzzerSet? || s.SetDelay?
    requires ins.kind == KindFor(s) && ins.x == s.x
    ensures ExecData(ins, d) == Effect(s, d)
  {
    hide ExecData, Effect;
    TimerExec(ins, d);
    TimerEffect(s, d);
  }

  lemma TimerEffect(s: Stmt, d: Data)
    requires s.DelaySet? || s.BuzzerSet? || s.SetDelay?
    ensures Effect(s, d) == TimerData(KindFor(s), s.x, d)
  {
    hide SetWithFlag, DrawVram, DrawCollides, Or8, And8, Xor8, StoreRegs, LoadRegs, StoreBcd, NextRng, RngByte;
  }

  lemma AddMod(a: int, b: int)
    ensures (a + b % 256) % 256 == (a + b) % 256
  {
  }

  /** Both skip instructions skip exactly as their condition says. */
  lemma SkipsCorrect(c: Cond, d: Data)
    ensures Skips(Decode(SkipTrue(c)), d) <==> CondHolds(c, d)
    ensures Skips(Decode(SkipFalse(c)), d) <==> !CondHolds(c, d)
    ensures IsSkip(Decode(SkipTrue(c)).kind) && IsSkip(Decode(SkipFalse(c)).kind)
  {
    hide SkipTrue, SkipFalse, Decode, Skips;
    TrueSkips(c, d);
    FalseSkips(c, d);
  }

  lemma TrueSkips(c: Cond, d: Data)
    ensures Skips(Decode(SkipTrue(c)), d) <==> CondHolds(c, d)
    ensures IsSkip(Decode(SkipTrue(c)).kind)
  {
    hide OpXY, OpXKk, FetchAt;
    match c {
      case EqReg(x, y) => DecodeXY(5, x, y, 0);
      case NeReg(x, y) => DecodeXY(9, x, y, 0);
      case EqVal(x, v) => DecodeXKk(3, x, v);
      case NeVal(x, v) => DecodeXKk(4, x, v);
      case KeyDown(x) => DecodeXKk(14, x, 0x9E);
      case KeyUp(x) => DecodeXKk(14, x, 0xA1);
    }
  }

  lemma FalseSkips(c: Cond, d: Data)
    ensures Skips(Decode(SkipFalse(c)), d) <==> !CondHolds(c, d)
    ensures IsSkip(Decode(SkipFalse(c)).kind)
  {
    hide OpXY, OpXKk;
    match c {
      case EqReg(x, y) => DecodeXY(9, x, y, 0);
      case NeReg(x, y) => DecodeXY(5, x, y, 0);
      case EqVal(x, v) => DecodeXKk(4, x, v);
      case NeVal(x, v) => DecodeXKk(3, x, v);
      case KeyDown(x) => DecodeXKk(14, x, 0xA1);
      case KeyUp(x) => DecodeXKk(14, x, 0x9E);
    }
  }

  predicate IsSkip(k: Kind) {
    k.SeVxKk? || k.SneVxKk? || k.SeVxVy? || k.SneVxVy? || k.SkpVx? || k.SknpVx?
  }

  // -------------------------------------------------------------- one statement

  /** The machine fetches, decodes and executes the word at offset off of statement i. */
  lemma StepAt(p: Program, i: nat, off: nat, m: Machine, op: Word)
    requires i < |p| && IsCode(p[i]) && off + 2 <= Size(p[i]) && CodeLoaded(p, m.d.mem)
    requires Final(p, i)[off..off + 2] == Bytes2(op)
    requires m.pc == Addr(p, i) + off && ExecOk(Decode(op), m)
    ensures Step(m) == Some(Exec(Decode(op), m))
  {
    hide Final, Decode, Exec, ExecOk, CodeLoaded;
    FetchWord(p, i, off, m.d.mem, op);
  }

  lemma DecodeJump(hi: Nibble, a: int)
    requires hi == 1 || hi == 2 || hi == 10 || hi == 11
    ensures var ins := Decode(AddrOp(hi, a));
      && ins.nnn == a % 4096
      && ins.kind == (if hi == 1 then JpNnn else if hi == 2 then CallNnn else if hi == 10 then LdINnn else JpV0Nnn)
  {
    hide AddrOp;
    DecodeAddr(hi, a);
  }

  lemma DecodeReturn()
    ensures Decode(0x00EE).kind == Ret
  {
  }

  /** Instructions that are not jumps, calls or skips fall through. */
  lemma ExecSequential(ins: Insn, m: Machine)
    requires ExecOk(ins, m) && (!IsTerminal(ins.kind) || ins.kind.LdVxK?)
    ensures Exec(ins, m) ==
      Machine(if ins.kind.LdVxK? then m.pc else (m.pc + 2) % 65536, m.sp, m.stack, ExecData(ins, m.d))
  {
    hide ExecData;
  }

  lemma MatchesAt(p: Program, s: Src, m: Machine)
    requires Matches(p, s, m)
    ensures s.at <= |p| && m.pc == Addr(p, s.at) && m.d == s.d && m.sp == |s.ret| <= 16 && CodeLoaded(p, m.d.mem)
  {
    hide CodeLoaded, Addr;
  }

  /** Moving both sides to the same place keeps them matching. */
  lemma MatchesMove(p: Program, s: Src, m: Machine, at: nat)
    requires Matches(p, s, m) && !s.d.waitKey && at <= |p| && Addr(p, at) < 4096
    ensures Matches(p, s.(at := at), m.(pc := Addr(p, at)))
  {
    hide CodeLoaded, Addr;
  }

  /** So does changing both states alike, if the code stays. */
  lemma MatchesData(p: Program, s: Src, m: Machine, at: nat, d: Data)
    requires Matches(p, s, m) && at <= |p| && Addr(p, at) < 4096 && CodeLoaded(p, d.mem)
    requires d.waitKey ==> at < |p| && p[at].SetKey?
    ensures Matches(p, Src(at, s.ret, d), Machine(Addr(p, at), m.sp, m.stack, d))
  {
    hide CodeLoaded, Addr;
  }

  /** A word that is a jump moves the machine and nothing else. */
  lemma JumpStep(p: Program, i: nat, off: nat, m: Machine, a: int)
    requires i < |p| && IsCode(p[i]) && off + 2 <= Size(p[i]) && CodeLoaded(p, m.d.mem)
    requires Final(p, i)[off..off + 2] == Bytes2(AddrOp(1, a))
    requires m.pc == Addr(p, i) + off
    ensures Step(m) == Some(m.(pc := a % 4096))
  {
    hide Decode, Final, AddrOp, CodeLoaded, Step;
    DecodeJump(1, a);
    StepAt(p, i, off, m, AddrOp(1, a));
    assert ExecOk(Decode(AddrOp(1, a)), m);
    var ins := Decode(AddrOp(1, a));
    assert ExecData(ins, m.d) == m.d;
  }

  /** A conditional skip moves over two or four bytes and nothing else. */
  lemma SkipStep(p: Program, i: nat, m: Machine, op: Word)
    requires i < |p| && IsCode(p[i]) && 2 <= Size(p[i]) && CodeLoaded(p, m.d.mem)
    requires Final(p, i)[0..2] == Bytes2(op) && IsSkip(Decode(op).kind)
    requires m.pc == Addr(p, i) && m.pc + 4 < 65536
    ensures Step(m) == Some(m.(pc := m.pc + if Skips(Decode(op), m.d) then 4 else 2))
  {
    hide Decode, Final, CodeLoaded, Step, Skips, Exec, ExecOk;
    SkipExec(Decode(op), m);
    StepAt(p, i, 0, m, op);
  }

  lemma SkipExec(ins: Insn, m: Machine)
    requires IsSkip(ins.kind) && m.pc + 4 < 65536
    ensures ExecOk(ins, m) && Exec(ins, m) == m.(pc := m.pc + if Skips(ins, m.d) then 4 else 2)
  {
    hide Skips, ExecData;
    TerminalData(ins, m.d);
  }

  /** The code ends below the top of memory. */
  predicate BelowTop(p: Program) { Addr(p, |p|) < 4096 }

  /** Where the next statement is, and that it is below the top. */
  lemma NextAddr(p: Program, i: nat)
    requires i < |p| && BelowTop(p)
    ensures Addr(p, i) < 4096 && Addr(p, i + 1) == Addr(p, i) + Size(p[i]) < 4096
    ensures forall j :: 0 <= j <= |p| ==> Addr(p, j) < 4096
  {
    AddrMonotone(p, i + 1, |p|);
    forall j | 0 <= j <= |p| ensures Addr(p, j) < 4096 {
      AddrMonotone(p, j, |p|);
    }
  }

  /** The finished word of a two-byte statement. */
  function MainWord(p: Program, i: nat): Word
    requires i < |p| && IsCode(p[i]) && Size(p[i]) == 2
  {
    if p[i].Again? then AddrOp(1, match FindLoop(p, i, 0) case Some(j) => Addr(p, j) case None => 0)
    else if p[i].Else? then AddrOp(1, ExitAddr(p, i, |p|))
    else if p[i].IfThen? then SkipFalse(p[i].c)
    else if p[i].Return? then 0x00EE
    else if TakesAddr(p[i]) then AddrOp(AddrNibble(p[i]), RefAddr(p, i, true))
    else PlainWord(p[i])
  }

  lemma FinalMain(p: Program, i: nat)
    requires i < |p| && IsCode(p[i]) && Size(p[i]) == 2
    ensures Final(p, i)[0..2] == Bytes2(MainWord(p, i))
  {
    hide AddrOp, FindLoop, ExitAddr, SkipFalse, RefAddr, PlainWord;
  }

  lemma PlainSource(p: Program, s: Src)
    requires s.at < |p| && Plain(p[s.at]) && SrcStep(p, s).Some?
    ensures !s.d.waitKey && (p[s.at].Bcd? ==> s.d.I + 2 < 4096)
    ensures var d := Effect(p[s.at], s.d);
      CodeIntact(p, s.d.mem, d.mem) &&
      SrcStep(p, s).value == Src(if p[s.at].SetKey? then s.at else s.at + 1, s.ret, d)
  {
    hide Effect, CodeIntact;
  }

  lemma PlainSimulated(p: Program, s: Src, m: Machine)
    requires Matches(p, s, m) && BelowTop(p) && s.at < |p| && Plain(p[s.at])
    requires SrcStep(p, s).Some?
    ensures Step(m).Some? && Matches(p, SrcStep(p, s).value, Step(m).value)
  {
    hide Decode, PlainWord, Effect, Final, ExecData, Addr, SrcStep, KindFor, MainWord;
    var i := s.at;
    var op := PlainWord(p[i]);
    NextAddr(p, i);
    assert MainWord(p, i) == op by { MainIsPlain(p, i); }
    FinalMain(p, i);
    PlainSource(p, s);
    PlainCorrect(p[i], s.d);
    NotTerminalUnlessKey(p[i]);
    EffectOnWait(p[i], s.d);
    var ins := Decode(op);
    PlainSteps(p, s, m, ins);
  }

  lemma PlainSteps(p: Program, s: Src, m: Machine, ins: Insn)
    requires Matches(p, s, m) && BelowTop(p) && s.at < |p| && Plain(p[s.at])
    requires !s.d.waitKey && (p[s.at].Bcd? ==> s.d.I + 2 < 4096)
    requires ins == Decode(PlainWord(p[s.at])) && Final(p, s.at)[0..2] == Bytes2(PlainWord(p[s.at]))
    requires (ins.kind.LdBVx? ==> s.d.I + 2 < 4096) && ExecData(ins, s.d) == Effect(p[s.at], s.d)
    requires !ins.kind.Ret? && !ins.kind.CallNnn? && (ins.kind.LdVxK? <==> p[s.at].SetKey?)
    requires IsTerminal(ins.kind) <==> p[s.at].SetKey?
    requires var d := Effect(p[s.at], s.d); CodeIntact(p, s.d.mem, d.mem) && (d.waitKey <==> p[s.at].SetKey?)
    ensures var at := if p[s.at].SetKey? then s.at else s.at + 1;
      Step(m).Some? && Matches(p, Src(at, s.ret, Effect(p[s.at], s.d)), Step(m).value)
  {
    hide Decode, PlainWord, Effect, Final, ExecData, Addr, IsTerminal, CodeLoaded, CodeIntact, Exec;
    var i := s.at;
    var d := Effect(p[i], s.d);
    NextAddr(p, i);
    assert ExecOk(ins, m);
    StepAt(p, i, 0, m, PlainWord(p[i]));
    ExecSequential(ins, m);
    CodeStillLoaded(p, m.d.mem, d.mem);
    MatchesData(p, s, m, if p[i].SetKey? then i else i + 1, d);
  }

  lemma MainIsPlain(p: Program, i: nat)
    requires i < |p| && Plain(p[i])
    ensures MainWord(p, i) == PlainWord(p[i])
  {
    hide PlainWord;
  }

  lemma CodeStillLoaded(p: Program, a: Memory, b: Memory)
    requires CodeLoaded(p, a) && CodeIntact(p, a, b)
    ensures CodeLoaded(p, b)
  {
    hide Addr, Encode, LoadedAt, SameRange;
    forall x | 0 <= x < |p| && IsCode(p[x]) ensures LoadedAt(b, Addr(p, x), Final(p, x)) {
      assert LoadedAt(a, Addr(p, x), Final(p, x));
      assert SameRange(a, b, Addr(p, x), Addr(p, x) + Size(p[x]));
      StillLoaded(a, b, Addr(p, x), Final(p, x));
    }
  }

  lemma StillLoaded(a: Memory, b: Memory, at: int, bytes: seq<Byte>)
    requires LoadedAt(a, at, bytes) && SameRange(a, b, at, at + |bytes|)
    ensures LoadedAt(b, at, bytes)
  {
    assert b[at..at + |bytes|] == a[at..at + |bytes|];
  }

  lemma NotTerminalUnlessKey(s: Stmt)
    requires Plain(s)
    ensures IsTerminal(KindFor(s)) <==> s.SetKey?
    ensures !KindFor(s).Ret? && !KindFor(s).CallNnn? && (KindFor(s).LdVxK? <==> s.SetKey?)
  {
  }

  lemma EffectOnWait(s: Stmt, d: Data)
    requires Plain(s) && (s.Bcd? ==> d.I + 2 < 4096) && !d.waitKey
    ensures Effect(s, d).waitKey <==> s.SetKey?
  {
    hide SetWithFlag, DrawVram, DrawCollides, StoreRegs, LoadRegs, StoreBcd, And8, NextRng, RngByte;
  }

  lemma IfThenSimulated(p: Program, s: Src, m: Machine)
    requires Matches(p, s, m) && BelowTop(p) && s.at < |p| && p[s.at].IfThen?
    requires SrcStep(p, s).Some?
    ensures Steps(m, 1).Some? && Matches(p, SrcStep(p, s).value, Steps(m, 1).value)
  {
    hide Decode, SkipFalse, SkipTrue, Skips, CondHolds, Final, Addr, Step, CodeLoaded, FetchAt, SrcStep, Matches, MainWord;
    var i, c := s.at, p[s.at].c;
    NextAddr(p, i);
    MatchesAt(p, s, m);
    IfThenSource(p, s);
    SkipsCorrect(c, s.d);
    FinalMain(p, i);
    MainIsSkip(p, i);
    SkipStep(p, i, m, SkipFalse(c));
    var at := if CondHolds(c, s.d) then i + 1 else i + 2;
    MatchesMove(p, s, m, at);
    OneStep(m, m.(pc := Addr(p, at)));
  }

  lemma IfBytes(p: Program, i: nat)
    requires i < |p| && p[i].IfBegin?
    ensures Final(p, i)[0..2] == Bytes2(SkipTrue(p[i].c))
    ensures Final(p, i)[2..4] == Bytes2(AddrOp(1, ExitAddr(p, i, |p|)))
  {
    hide AddrOp, SkipTrue, ExitAddr;
  }

  lemma IfBeginSource(p: Program, s: Src)
    requires s.at < |p| && p[s.at].IfBegin? && SrcStep(p, s).Some?
    ensures !s.d.waitKey
    ensures CondHolds(p[s.at].c, s.d) ==> SrcStep(p, s).value == s.(at := s.at + 1)
    ensures !CondHolds(p[s.at].c, s.d) ==>
      ScanIf(p, s.at, |p|).Found? && SrcStep(p, s).value == s.(at := ScanIf(p, s.at, |p|).at + 1)
  {
    hide CondHolds, ScanIf;
  }

  lemma IfBeginSimulated(p: Program, s: Src, m: Machine)
    requires Matches(p, s, m) && BelowTop(p) && s.at < |p| && p[s.at].IfBegin?
    requires SrcStep(p, s).Some?
    ensures Steps(m, Cost(p, s)).Some? && Matches(p, SrcStep(p, s).value, Steps(m, Cost(p, s)).value)
  {
    hide Decode, SkipFalse, SkipTrue, Skips, CondHolds, Final, Addr, Step, CodeLoaded, AddrOp, ScanIf, SrcStep,
         MainWord, Matches, FetchAt;
    var i, c := s.at, p[s.at].c;
    NextAddr(p, i);
    MatchesAt(p, s, m);
    SkipsCorrect(c, s.d);
    IfBytes(p, i);
    IfBeginSource(p, s);
    SkipStep(p, i, m, SkipTrue(c));
    if CondHolds(c, s.d) {
      MatchesMove(p, s, m, i + 1);
      OneStep(m, m.(pc := m.pc + 4));
    } else {
      MatchesMove(p, s, m, ScanIf(p, i, |p|).at + 1);
      var a := ExitAddr(p, i, |p|);
      var m1 := m.(pc := m.pc + 2);
      JumpStep(p, i, 2, m1, a);
      TwoSteps(m, m1, m1.(pc := a % 4096));
    }
  }

  lemma IfThenSource(p: Program, s: Src)
    requires s.at < |p| && p[s.at].IfThen? && SrcStep(p, s).Some?
    ensures !s.d.waitKey
    ensures CondHolds(p[s.at].c, s.d) ==> SrcStep(p, s).value == s.(at := s.at + 1)
    ensures !CondHolds(p[s.at].c, s.d) ==>
      s.at + 2 <= |p| && SrcStep(p, s).value == s.(at := s.at + 2) && Addr(p, s.at + 2) == Addr(p, s.at) + 4
  {
    hide CondHolds, FindLoop, ScanIf, TargetStmt, Effect, RefAddr, CodeIntact;
    if s.at + 1 < |p| { assert Addr(p, s.at + 2) == Addr(p, s.at + 1) + Size(p[s.at + 1]); }
  }

  lemma MainIsSkip(p: Program, i: nat)
    requires i < |p| && p[i].IfThen?
    ensures MainWord(p, i) == SkipFalse(p[i].c)
  {
  }

  lemma TwoSteps(m: Machine, m1: Machine, t: Machine)
    requires Step(m) == Some(m1) && Step(m1) == Some(t)
    ensures Steps(m, 2) == Some(t)
  {
    hide Step;
    assert Iterate(Step, t, 0) == Some(t);
    assert Iterate(Step, m1, 1) == Some(t);
  }

  lemma OneStep(m: Machine, t: Machine)
    requires Step(m) == Some(t)
    ensures Steps(m, 1) == Some(t)
  {
    hide Step;
    assert Iterate(Step, t, 0) == Some(t);
  }

  /** The address in an again, else or jump is that of the statement control moves to. */
  lemma JumpSource(p: Program, s: Src)
    requires BelowTop(p) && s.at < |p| && (p[s.at].Again? || p[s.at].Else? || p[s.at].Jump?)
    requires SrcStep(p, s).Some?
    ensures var j := SrcStep(p, s).value.at;
      && !s.d.waitKey && j <= |p| && SrcStep(p, s).value == s.(at := j)
      && MainWord(p, s.at) == AddrOp(1, Addr(p, j)) && Addr(p, j) < 4096
  {
    hide Addr, RefAddr, FindLoop, ScanIf;
    hide AddrOp;
    NextAddr(p, s.at);
    if p[s.at].Jump? { TargetAddress(p, s.at, 0); AddrOpMod(1, RefAddr(p, s.at, true)); }
  }

  lemma AddrOpMod(hi: Nibble, a: int)
    ensures AddrOp(hi, a) == AddrOp(hi, a % 4096)
  {
  }

  lemma JumpSimulated(p: Program, s: Src, m: Machine)
    requires Matches(p, s, m) && BelowTop(p) && s.at < |p| && (p[s.at].Again? || p[s.at].Else? || p[s.at].Jump?)
    requires SrcStep(p, s).Some?
    ensures Step(m).Some? && Matches(p, SrcStep(p, s).value, Step(m).value)
  {
    hide Final, Step, CodeLoaded, AddrOp, Addr, MainWord, SrcStep, Matches, FetchAt;
    FinalMain(p, s.at);
    MatchesAt(p, s, m);
    JumpSource(p, s);
    var j := SrcStep(p, s).value.at;
    JumpStep(p, s.at, 0, m, Addr(p, j));
    MatchesMove(p, s, m, j);
  }

  /** The address in a jump is that of the statement it leads to. */
  lemma TargetAddress(p: Program, i: nat, offset: nat)
    requires i < |p| && TakesAddr(p[i]) && BelowTop(p) && TargetStmt(p, i, offset).Some?
    ensures var j := TargetStmt(p, i, offset).value;
      j < |p| && Addr(p, j) == RefAddr(p, i, true) % 4096 + offset
  {
    match TargetOf(p[i]) {
      case Num(_) =>
      case Name(n) => AddrMonotone(p, LabelFor(p, i, n).value, |p|);
    }
  }

  lemma ReturnSimulated(p: Program, s: Src, m: Machine)
    requires Matches(p, s, m) && BelowTop(p) && s.at < |p| && p[s.at].Return?
    requires SrcStep(p, s).Some?
    ensures Step(m).Some? && Matches(p, SrcStep(p, s).value, Step(m).value)
  {
    hide Final, CodeLoaded, Addr, Decode, Step, FetchAt, FindLoop, ScanIf;
    FinalMain(p, s.at);
    DecodeReturn();
    var ins := Decode(0x00EE);
    StepAt(p, s.at, 0, m, 0x00EE);
    assert ExecData(ins, m.d) == m.d;
  }

  lemma CallSource(p: Program, s: Src)
    requires BelowTop(p) && s.at < |p| && (p[s.at].Call? || p[s.at].Jump0?) && SrcStep(p, s).Some?
    ensures var j := SrcStep(p, s).value.at; var a := RefAddr(p, s.at, true);
      && !s.d.waitKey && j < |p|
      && MainWord(p, s.at) == AddrOp(if p[s.at].Call? then 2 else 11, a)
      && (p[s.at].Call? ==>
           |s.ret| < 16 && SrcStep(p, s).value == Src(j, s.ret + [s.at + 1], s.d) && Addr(p, j) == a % 4096)
      && (p[s.at].Jump0? ==> SrcStep(p, s).value == s.(at := j) && Addr(p, j) == a % 4096 + s.d.V[0])
  {
    hide RefAddr, TargetStmt;
    hide AddrOp, Addr;
    TargetAddress(p, s.at, if p[s.at].Call? then 0 else s.d.V[0]);
  }

  lemma CallSimulated(p: Program, s: Src, m: Machine)
    requires Matches(p, s, m) && BelowTop(p) && s.at < |p| && p[s.at].Call?
    requires SrcStep(p, s).Some?
    ensures Step(m).Some? && Matches(p, SrcStep(p, s).value, Step(m).value)
  {
    hide Final, CodeLoaded, AddrOp, Addr, Decode, RefAddr, Step, FetchAt, SrcStep, MainWord, Exec, ExecOk, Matches;
    var i := s.at;
    NextAddr(p, i);
    FinalMain(p, i);
    MatchesAt(p, s, m);
    CallSource(p, s);
    DecodeJump(2, RefAddr(p, i, true));
    var op := AddrOp(2, RefAddr(p, i, true));
    var ins := Decode(op);
    ExecCall(ins, m);
    StepAt(p, i, 0, m, op);
    CallMatches(p, s, m, Exec(ins, m), SrcStep(p, s).value.at);
  }

  lemma CallMatches(p: Program, s: Src, m: Machine, t: Machine, j: nat)
    requires Matches(p, s, m) && s.at < |p| && j <= |p| && !s.d.waitKey && |s.ret| < 16
    requires Addr(p, s.at + 1) < 4096 && t.d == m.d
    requires t.pc == Addr(p, j) && t.sp == m.sp + 1 && t.stack == m.stack[m.sp := Addr(p, s.at + 1)]
    ensures Matches(p, Src(j, s.ret + [s.at + 1], s.d), t)
  {
    hide Addr, CodeLoaded;
  }

  lemma Jump0Simulated(p: Program, s: Src, m: Machine)
    requires Matches(p, s, m) && BelowTop(p) && s.at < |p| && p[s.at].Jump0?
    requires SrcStep(p, s).Some?
    ensures Step(m).Some? && Matches(p, SrcStep(p, s).value, Step(m).value)
  {
    hide Final, CodeLoaded, AddrOp, Addr, Decode, RefAddr, Step, FetchAt, SrcStep, MainWord;
    FinalMain(p, s.at);
    CallSource(p, s);
    DecodeJump(11, RefAddr(p, s.at, true));
    var op := AddrOp(11, RefAddr(p, s.at, true));
    var ins := Decode(op);
    StepAt(p, s.at, 0, m, op);
    assert ExecData(ins, m.d) == m.d;
  }

  lemma ISetSource(p: Program, s: Src)
    requires s.at < |p| && p[s.at].ISet? && SrcStep(p, s).Some?
    ensures var a := RefAddr(p, s.at, true);
      && !s.d.waitKey && MainWord(p, s.at) == AddrOp(10, a)
      && SrcStep(p, s) == Some(Src(s.at + 1, s.ret, s.d.(I := a % 4096)))
  {
    hide RefAddr, AddrOp;
  }

  lemma ExecLdI(ins: Insn, m: Machine)
    requires ins.kind.LdINnn?
    ensures ExecOk(ins, m) && Exec(ins, m) == Machine((m.pc + 2) % 65536, m.sp, m.stack, m.d.(I := ins.nnn))
  {
  }

  lemma ExecCall(ins: Insn, m: Machine)
    requires ins.kind.CallNnn? && m.sp < 16
    ensures ExecOk(ins, m)
    ensures Exec(ins, m) == Machine(ins.nnn, m.sp + 1, m.stack[m.sp := (m.pc + 2) % 65536], m.d)
  {
  }

  lemma ISetSimulated(p: Program, s: Src, m: Machine)
    requires Matches(p, s, m) && BelowTop(p) && s.at < |p| && p[s.at].ISet? && SrcStep(p, s).Some?
    ensures Step(m).Some? && Matches(p, SrcStep(p, s).value, Step(m).value)
  {
    hide Final, CodeLoaded, AddrOp, Addr, Decode, RefAddr, Step, FetchAt, MainWord, SrcStep, Exec, ExecOk, Matches;
    var i := s.at;
    NextAddr(p, i);
    FinalMain(p, i);
    MatchesAt(p, s, m);
    var a := RefAddr(p, i, true);
    ISetSource(p, s);
    DecodeJump(10, a);
    var op := AddrOp(10, a);
    var ins := Decode(op);
    ExecLdI(ins, m);
    StepAt(p, i, 0, m, op);
    MatchesData(p, s, m, i + 1, m.d.(I := a % 4096));
  }

  /** Every source step is matched by Cost machine steps ending in the matching state. */
  lemma StepSimulated(p: Program, s: Src, m: Machine)
    requires Matches(p, s, m) && BelowTop(p) && SrcStep(p, s).Some?
    ensures Steps(m, Cost(p, s)).Some? && Matches(p, SrcStep(p, s).value, Steps(m, Cost(p, s)).value)
  {
    hide Step, CodeLoaded, Addr;
    var i := s.at;
    var one := !p[i].Label? && !p[i].Loop? && !p[i].End? && !p[i].IfThen? && !p[i].IfBegin?;
    if Plain(p[i]) {
      PlainSimulated(p, s, m);
    } else if p[i].IfThen? {
      IfThenSimulated(p, s, m);
    } else if p[i].IfBegin? {
      IfBeginSimulated(p, s, m);
    } else if p[i].Again? || p[i].Else? || p[i].Jump? {
      JumpSimulated(p, s, m);
    } else if p[i].Call? {
      CallSimulated(p, s, m);
    } else if p[i].Return? {
      ReturnSimulated(p, s, m);
    } else if p[i].Jump0? {
      Jump0Simulated(p, s, m);
    } else if p[i].ISet? {
      ISetSimulated(p, s, m);
    } else {
      MarkerSimulated(p, s, m);
    }
    if one { OneStep(m, Step(m).value); }
  }

  lemma MarkerSimulated(p: Program, s: Src, m: Machine)
    requires Matches(p, s, m) && s.at < |p| && (p[s.at].Label? || p[s.at].Loop? || p[s.at].End?)
    requires !s.d.waitKey
    ensures SrcStep(p, s).Some? && Matches(p, SrcStep(p, s).value, m)
  {
    hide CodeLoaded;
  }

  /** The source after n statements. */
  function SrcRun(p: Program, s: Src, n: nat): Option<Src>
    decreases n
  {
    if n == 0 then Some(s)
    else match SrcStep(p, s) case None => None case Some(t) => SrcRun(p, t, n - 1)
  }

  /** Machine steps for n source steps. */
  function RunCost(p: Program, s: Src, n: nat): nat
    decreases n
  {
    if n == 0 then 0
    else match SrcStep(p, s)
      case None => 0
      case Some(t) => Cost(p, s) + RunCost(p, t, n - 1)
  }

  /** Whole runs: however long the source runs, the machine is with it. */
  lemma {:induction false} RunSimulated(p: Program, s: Src, m: Machine, n: nat)
    requires Matches(p, s, m) && BelowTop(p) && SrcRun(p, s, n).Some?
    ensures Steps(m, RunCost(p, s, n)).Some?
    ensures Matches(p, SrcRun(p, s, n).value, Steps(m, RunCost(p, s, n)).value)
    decreases n
  {
    hide Step, Matches, SrcStep, Cost, BelowTop;
    if n > 0 {
      StepSimulated(p, s, m);
      var t, m1 := SrcStep(p, s).value, Steps(m, Cost(p, s)).value;
      RunSimulated(p, t, m1, n - 1);
      IterateCompose(Step, m, Cost(p, s), RunCost(p, t, n - 1));
    }
  }

  // ------------------------------------------------------------- start and keys

  /** Loading the assembled bytes at 0x200 and starting there matches the first statement. */
  lemma LoadedMatches(p: Program, rom: seq<Byte>, m: Machine)
    requires BelowTop(p) && |rom| == Addr(p, |p|) - ROM_BASE
    requires forall i :: 0 <= i < |p| ==> BytesAt(rom, Addr(p, i) - ROM_BASE, Final(p, i))
    requires m.d.mem[ROM_BASE..ROM_BASE + |rom|] == rom
    requires m.pc == ROM_BASE && m.sp == 0 && !m.d.waitKey
    ensures Matches(p, Src(0, [], m.d), m)
  {
    hide Final, Addr, Size;
    StartAddr(p);
    forall i | 0 <= i < |p| && IsCode(p[i]) ensures LoadedAt(m.d.mem, Addr(p, i), Final(p, i)) {
      assert BytesAt(rom, Addr(p, i) - ROM_BASE, Final(p, i));
      EndWithin(p, i);
      CopiedBytes(m.d.mem, rom, Addr(p, i) - ROM_BASE, Final(p, i));
    }
  }

  lemma CopiedBytes(mem: Memory, rom: seq<Byte>, off: int, b: seq<Byte>)
    requires BytesAt(rom, off, b) && ROM_BASE + |rom| <= 4096 && mem[ROM_BASE..ROM_BASE + |rom|] == rom
    ensures LoadedAt(mem, ROM_BASE + off, b)
  {
    var a := ROM_BASE + off;
    assert mem[a..a + |b|] == mem[ROM_BASE..ROM_BASE + |rom|][off..off + |b|];
  }

  lemma EndWithin(p: Program, i: nat)
    requires i < |p|
    ensures |Final(p, i)| == Size(p[i]) && Addr(p, i) + Size(p[i]) <= Addr(p, |p|)
  {
    AddrMonotone(p, i, |p|);
  }

  lemma StartAddr(p: Program)
    ensures Addr(p, 0) == ROM_BASE
  {
  }

  /** A key press answers the awaited vx := key on both sides alike. */
  lemma KeySimulated(p: Program, s: Src, m: Machine, key: Nibble)
    requires Matches(p, s, m) && BelowTop(p) && s.d.waitKey
    ensures Matches(p, SrcKey(s, key), MachineKey(m, key))
  {
    hide CodeLoaded, Addr;
    NextAddr(p, s.at);
  }

  // ------------------------------------------------- what acceptance guarantees

  /** The scan depth is how many more ifs are open; so what lies between partners is balanced. */
  lemma {:induction false} ScanCountsIfs(p: Program, i: nat, k: nat)
    requires i < k <= |p|
    ensures match ScanIf(p, i, k)
      case Open(d) => OpenIfs(p, k) == OpenIfs(p, i + 1) + d
      case Found(j) => OpenIfs(p, j) == OpenIfs(p, i + 1)
    decreases k
  {
    if k > i + 1 { ScanCountsIfs(p, i, k - 1); }
  }

  lemma {:induction false} OpenIfsNonNegative(p: Program, k: nat)
    requires k <= |p| && forall j :: 0 <= j < |p| ==> StmtFits(p, j)
    ensures OpenIfs(p, k) >= 0
  {
    if k > 0 {
      OpenIfsNonNegative(p, k - 1);
      assert StmtFits(p, k - 1);
    }
  }

  /** Exactly the loops counted as open are found by the backward scan. */
  lemma {:induction false} FindLoopCounts(p: Program, k: nat, d: nat)
    requires k <= |p| && forall j :: 0 <= j < |p| ==> StmtFits(p, j)
    ensures FindLoop(p, k, d).Some? <==> d < OpenLoops(p, k)
    ensures OpenLoops(p, k) >= 0
    decreases k
  {
    if k > 0 {
      assert StmtFits(p, k - 1);
      FindLoopCounts(p, k - 1, d);
      FindLoopCounts(p, k - 1, d + 1);
      if d > 0 { FindLoopCounts(p, k - 1, d - 1); }
    }
  }

  /** In an accepted program every if and else has its partner, every again its loop and every
      name its label: none of them leaves the program without a next statement. */
  lemma AcceptedIsClosed(p: Program, romMax: nat, i: nat)
    requires Acceptable(p, romMax) && i < |p|
    ensures Opens(p[i]) ==> ScanIf(p, i, |p|).Found?
    ensures p[i].Again? ==> FindLoop(p, i, 0).Some?
    ensures TakesAddr(p[i]) && TargetOf(p[i]).Name? ==> LabelFor(p, i, TargetOf(p[i]).name).Some?
  {
    hide ScanIf, FindLoop, OpenLoops;
    assert StmtFits(p, i);
    if Opens(p[i]) {
      ScanCountsIfs(p, i, |p|);
      OpenIfsNonNegative(p, i);
    }
    if p[i].Again? { FindLoopCounts(p, i, 0); }
  }

  /** A label defined once is what every reference to it means, before or after. */
  lemma {:induction false} LabelDefinedOnce(p: Program, d: nat, k: nat, name: string)
    requires d < |p| && k <= |p| && p[d] == Label(name)
    requires forall j :: 0 <= j < |p| && p[j] == Label(name) ==> j == d
    ensures LabelBefore(p, k, name) == if d < k then Some(d) else None
    ensures LabelFor(p, k, name) == Some(d)
  {
    LabelOnceBefore(p, d, k, name);
    LabelOnceBefore(p, d, |p|, name);
  }

  lemma {:induction false} LabelOnceBefore(p: Program, d: nat, k: nat, name: string)
    requires d < |p| && k <= |p| && p[d] == Label(name)
    requires forall j :: 0 <= j < |p| && p[j] == Label(name) ==> j == d
    ensures LabelBefore(p, k, name) == if d < k then Some(d) else None
  {
    if k > 0 {
      LabelOnceBefore(p, d, k - 1, name);
      if p[k - 1].Label? && p[k - 1].name == name { assert p[k - 1] == Label(name); }
    }
  }

  /** A false if..then lands behind the next statement exactly when that is one instruction long. */
  lemma ThenSkipsOneStatement(p: Program, i: nat, m: Machine)
    requires BelowTop(p) && i + 1 < |p| && p[i].IfThen? && CodeLoaded(p, m.d.mem)
    requires m.pc == Addr(p, i) && !CondHolds(p[i].c, m.d)
    ensures Step(m).Some? && Step(m).value.pc == Addr(p, i) + 4
    ensures Step(m).value.pc == Addr(p, i + 2) <==> Size(p[i + 1]) == 2
  {
    hide Decode, SkipFalse, SkipTrue, Skips, CondHolds, Final, Step, CodeLoaded, FetchAt, MainWord;
    NextAddr(p, i);
    NextAddr(p, i + 1);
    SkipsCorrect(p[i].c, m.d);
    FinalMain(p, i);
    MainIsSkip(p, i);
    SkipStep(p, i, m, SkipFalse(p[i].c));
  }
}
