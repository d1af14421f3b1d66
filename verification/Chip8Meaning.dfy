/** The instruction set of the CHIP-8 core, byte by byte and in plain numbers: what Step does to a machine
    whose next two bytes are known. */
module Chip8Meaning {
  import opened Arithmetic
  import opened ByteBits
  import opened Runs
  import opened Chip8

  // ------------------------------------------------------------------------ bytes

  /** The bits of or, and, exclusive or. */
  lemma BitwiseOps8(a: Byte, b: Byte, k: nat)
    requires k < 8
    ensures Bit(Or8(a, b), k) <==> Bit(a, k) || Bit(b, k)
    ensures Bit(And8(a, b), k) <==> Bit(a, k) && Bit(b, k)
    ensures Bit(Xor8(a, b), k) <==> Bit(a, k) != Bit(b, k)
  {
    hide Bit, Or, And, Xor, Vector, Value, Or8, And8, Xor8;
    OrIs(a, b);
    AndIs(a, b);
    XorIs(a, b);
    BitwiseOps(a, b, k);
  }

  lemma OrIs(a: Byte, b: Byte)
    ensures Or8(a, b) == Value(Or(Vector(a), Vector(b)))
  {
  }

  lemma AndIs(a: Byte, b: Byte)
    ensures And8(a, b) == Value(And(Vector(a), Vector(b)))
  {
  }

  lemma XorIs(a: Byte, b: Byte)
    ensures Xor8(a, b) == Value(Xor(Vector(a), Vector(b)))
  {
  }

  /** Column c of a sprite row is bit 7 - c: the leftmost pixel is the highest bit. */
  lemma SpriteColumn(row: Byte, c: nat)
    requires c < 8
    ensures SpriteBit(row, c) <==> Bit(row, 7 - c)
  {
    hide Bit, Set, And, Vector, Value, SpriteBit;
    SameByte(row);
    ColumnIs(row, c);
    BitOf(Vector(row), 7 - c);
    ColumnBit(Vector(row), c as bv8);
  }

  lemma ColumnIs(row: Byte, c: nat)
    requires c < 8
    ensures SpriteBit(row, c) <==> And(Vector(row), 0x80 >> (c as bv8)) != 0 && (7 - c) as bv8 == 7 - c as bv8
  {
  }

  lemma Up13Raw(r: bv32, k: bv32)
    requires k < 32
    ensures Has(r ^ (r << 13), k) <==> Has(r, k) != (k >= 13 && Has(r, k - 13))
  {
  }

  lemma Up13Bit(r: bv32, k: bv32)
    requires k < 32
    ensures Has(Up13(r), k) <==> Has(r, k) != (k >= 13 && Has(r, k - 13))
  {
    hide Has;
    Up13Raw(r, k);
  }

  lemma Down17Raw(r: bv32, k: bv32)
    requires k < 32
    ensures Has(r ^ (r >> 17), k) <==> Has(r, k) != (k < 15 && Has(r, k + 17))
  {
  }

  lemma Down17Bit(r: bv32, k: bv32)
    requires k < 32
    ensures Has(Down17(r), k) <==> Has(r, k) != (k < 15 && Has(r, k + 17))
  {
    hide Has;
    Down17Raw(r, k);
  }

  lemma Up5Raw(r: bv32, k: bv32)
    requires k < 32
    ensures Has(r ^ (r << 5), k) <==> Has(r, k) != (k >= 5 && Has(r, k - 5))
  {
  }

  lemma Up5Bit(r: bv32, k: bv32)
    requires k < 32
    ensures Has(Up5(r), k) <==> Has(r, k) != (k >= 5 && Has(r, k - 5))
  {
    hide Has;
    Up5Raw(r, k);
  }

  /** The random generator is xorshift32: bits exclusive-or those 13 below, 17 above, 5 below, in this order, as its
      known sequence shows; and its low byte is drawn. */
  lemma RandomNumbers(r: bv32, k: bv32)
    requires k < 32
    ensures Has(Up13(r), k) <==> Has(r, k) != (k >= 13 && Has(r, k - 13))
    ensures Has(Down17(r), k) <==> Has(r, k) != (k < 15 && Has(r, k + 17))
    ensures Has(Up5(r), k) <==> Has(r, k) != (k >= 5 && Has(r, k - 5))
    ensures NextRng(r) == Up5(Down17(Up13(r))) && RngByte(r) == (r % 256) as int
    ensures NextRng(1) == 270369 && NextRng(270369) == 67634689 && NextRng(67634689) == 2647435461
  {
    hide Has, Up13, Down17, Up5, RngByte;
    Up13Bit(r, k);
    Down17Bit(r, k);
    Up5Bit(r, k);
    LowByte(r);
    KnownSequence();
  }

  lemma KnownSequence()
    ensures NextRng(1) == 270369 && NextRng(270369) == 67634689 && NextRng(67634689) == 2647435461
  {
  }

  lemma LowByte(r: bv32)
    ensures RngByte(r) == (r % 256) as int
  {
    assert r & 0xFF == r % 256;
  }

  // ----------------------------------------------------------------- instructions

  /** The two bytes at PC. */
  predicate Fetches(m: Machine, hi: int, lo: int) {
    m.pc + 1 < 4096 && m.d.mem[m.pc] == hi && m.d.mem[m.pc + 1] == lo
  }

  /** Only the data changes, and the next instruction is the following one. */
  predicate Goes(m: Machine, d: Data) {
    m.pc + 2 < 65536 && Step(m) == Some(m.(pc := m.pc + 2, d := d))
  }

  /** The decoded fields are the four nibbles, the low byte and the low twelve bits. */
  lemma Fetched(m: Machine, hi: Byte, lo: Byte)
    requires Fetches(m, hi, lo)
    ensures var ins := Insn(KindOf(hi as int * 256 + lo), hi % 16, lo / 16, lo % 16, lo, hi % 16 * 256 + lo);
      Step(m) == if ExecOk(ins, m) then Some(Exec(ins, m)) else None
  {
    hide KindOf, Exec, ExecOk;
    Fields(hi, lo);
    assert FetchAt(m.d.mem, m.pc) == hi as int * 256 + lo;
  }

  lemma Fields(hi: Byte, lo: Byte)
    ensures var op: Word := hi as int * 256 + lo;
      && op / 4096 == hi / 16 && op / 256 % 16 == hi % 16 && op / 16 % 16 == lo / 16 && op % 16 == lo % 16
      && op % 256 == lo && op % 4096 == hi % 16 * 256 + lo
  {
  }

  /** An instruction that moves on to the next one. */
  lemma MovesOn(m: Machine, hi: Byte, lo: Byte, ins: Insn)
    requires Fetches(m, hi, lo)
    requires ins == Insn(KindOf(hi as int * 256 + lo), hi % 16, lo / 16, lo % 16, lo, hi % 16 * 256 + lo)
    requires !IsTerminal(ins.kind) && (ins.kind.LdBVx? ==> m.d.I + 2 < 4096)
    ensures Goes(m, ExecData(ins, m.d))
  {
    hide KindOf, ExecData, Step, Exec;
    Fetched(m, hi, lo);
    Sequential(ins, m);
  }

  // ------------------------------------------------------------- register instructions

  /** Which instruction 8xyN is. */
  lemma RegisterKind(hi: Byte, lo: Byte)
    requires hi / 16 == 8
    ensures KindOf(hi as int * 256 + lo) ==
      match lo % 16
      case 0 => LdVxVy case 1 => OrVxVy case 2 => AndVxVy case 3 => XorVxVy case 4 => AddVxVy case 5 => SubVxVy
      case 6 => ShrVx case 7 => SubnVxVy case 14 => ShlVx case _ => Invalid
  {
    Fields(hi, lo);
  }

  lemma BitwiseAll(a: Byte, b: Byte)
    ensures forall k: nat :: k < 8 ==> (Bit(Or8(a, b), k) <==> Bit(a, k) || Bit(b, k))
    ensures forall k: nat :: k < 8 ==> (Bit(And8(a, b), k) <==> Bit(a, k) && Bit(b, k))
    ensures forall k: nat :: k < 8 ==> (Bit(Xor8(a, b), k) <==> Bit(a, k) != Bit(b, k))
  {
    hide Or8, And8, Xor8, Bit;
    forall k: nat | k < 8
      ensures Bit(Or8(a, b), k) <==> Bit(a, k) || Bit(b, k)
      ensures Bit(And8(a, b), k) <==> Bit(a, k) && Bit(b, k)
      ensures Bit(Xor8(a, b), k) <==> Bit(a, k) != Bit(b, k)
    {
      BitwiseOps8(a, b, k);
    }
  }

  /** The register instructions 8xyN: copy, or, and, exclusive or, add, the two subtractions, the two shifts. VF is
      written last; any other N does nothing. */
  predicate RegisterOp(n: int, V: Regs, x: Nibble, y: Nibble, W: Regs) {
    var a: int, b: int := V[x], V[y];
    match n
    case 0 => W == V[x := b]
    case 1 => W == V[x := W[x]] && forall k: nat :: k < 8 ==> (Bit(W[x], k) <==> Bit(a, k) || Bit(b, k))
    case 2 => W == V[x := W[x]] && forall k: nat :: k < 8 ==> (Bit(W[x], k) <==> Bit(a, k) && Bit(b, k))
    case 3 => W == V[x := W[x]] && forall k: nat :: k < 8 ==> (Bit(W[x], k) <==> Bit(a, k) != Bit(b, k))
    case 4 => W == V[x := if a + b < 256 then a + b else a + b - 256][15 := if a + b < 256 then 0 else 1]
    case 5 => W == V[x := if a >= b then a - b else a - b + 256][15 := if a >= b then 1 else 0]
    case 6 => W == V[x := a / 2][15 := a % 2]
    case 7 => W == V[x := if b >= a then b - a else b - a + 256][15 := if b >= a then 1 else 0]
    case 14 => W == V[x := if a < 128 then 2 * a else 2 * a - 256][15 := if a < 128 then 0 else 1]
    case _ => W == V
  }

  lemma RegisterInsn(m: Machine, hi: Byte, lo: Byte)
    requires Fetches(m, hi, lo) && hi / 16 == 8
    ensures Step(m).Some? && Goes(m, m.d.(V := Step(m).value.d.V))
    ensures RegisterOp(lo % 16, m.d.V, hi % 16, lo / 16, Step(m).value.d.V)
  {
    hide Or8, And8, Xor8, Bit, Step, KindOf, AluRegs, RegisterOp, AluValue;
    var d := m.d;
    var ins := Insn(KindOf(hi as int * 256 + lo), hi % 16, lo / 16, lo % 16, lo, hi % 16 * 256 + lo);
    RegisterKind(hi, lo);
    MovesOn(m, hi, lo, ins);
    var W := if IsAlu(ins.kind) then AluRegs(ins, d.V) else d.V;
    assert ExecData(ins, d) == d.(V := W);
    if ins.kind.OrVxVy? || ins.kind.AndVxVy? || ins.kind.XorVxVy? {
      BitwiseEffect(ins, lo % 16, d.V);
    } else {
      ArithmeticEffect(ins, lo % 16, d.V);
    }
  }

  lemma BitwiseEffect(ins: Insn, n: int, V: Regs)
    requires match ins.kind case OrVxVy => n == 1 case AndVxVy => n == 2 case XorVxVy => n == 3 case _ => false
    ensures RegisterOp(n, V, ins.x, ins.y, AluRegs(ins, V))
  {
    hide Or8, And8, Xor8, Bit;
    BitwiseAll(V[ins.x], V[ins.y]);
  }

  lemma ArithmeticEffect(ins: Insn, n: int, V: Regs)
    requires match ins.kind
      case LdVxVy => n == 0 case AddVxVy => n == 4 case SubVxVy => n == 5 case ShrVx => n == 6 case SubnVxVy => n == 7
      case ShlVx => n == 14 case Invalid => 8 <= n && n != 14
      case _ => false
    ensures RegisterOp(n, V, ins.x, ins.y, if IsAlu(ins.kind) then AluRegs(ins, V) else V)
  {
    hide AluValue, AluFlag;
    if IsAlu(ins.kind) { Arithmetic8(ins, V[ins.x], V[ins.y]); }
  }

  lemma Arithmetic8(ins: Insn, vx: Byte, vy: Byte)
    ensures var a: int, b: int, w: int, f := vx, vy, AluValue(ins, vx, vy), AluFlag(ins.kind, vx, vy);
      && (ins.kind.LdVxVy? ==> w == b)
      && (ins.kind.AddVxVy? ==> w == (if a + b < 256 then a + b else a + b - 256) && (f <==> a + b >= 256))
      && (ins.kind.SubVxVy? ==> w == (if a >= b then a - b else a - b + 256) && (f <==> a >= b))
      && (ins.kind.SubnVxVy? ==> w == (if b >= a then b - a else b - a + 256) && (f <==> b >= a))
      && (ins.kind.ShrVx? ==> w == a / 2 && (f <==> a % 2 == 1))
      && (ins.kind.ShlVx? ==> w == (if a < 128 then 2 * a else 2 * a - 256) && (f <==> a >= 128))
  {
    hide Or8, And8, Xor8;
    Doubled(vx);
    Wrapped(vx as int + vy);
    Wrapped(vx as int - vy);
    Wrapped(vy as int - vx);
  }

  /** 6xkk and 7xkk: load and add a byte, without a flag. */
  lemma ByteInsn(m: Machine, hi: Byte, lo: Byte)
    requires Fetches(m, hi, lo) && (hi / 16 == 6 || hi / 16 == 7)
    ensures var V, x := m.d.V, hi % 16; var sum := V[x] as int + lo;
      Goes(m, m.d.(V := V[x := if hi / 16 == 6 then lo else if sum < 256 then sum else sum - 256]))
  {
    hide Goes, Or8, And8, Xor8;
    Fields(hi, lo);
    var ins := Insn(KindOf(hi as int * 256 + lo), hi % 16, lo / 16, lo % 16, lo, hi % 16 * 256 + lo);
    MovesOn(m, hi, lo, ins);
  }

  /** Cxkk: the next random byte, masked. */
  lemma RandomInsn(m: Machine, hi: Byte, lo: Byte)
    requires Fetches(m, hi, lo) && hi / 16 == 12
    ensures var r := NextRng(m.d.rng); var x := hi % 16;
      && Step(m).Some? && Goes(m, m.d.(rng := r, V := m.d.V[x := Step(m).value.d.V[x]]))
      && forall k: nat :: k < 8 ==> (Bit(Step(m).value.d.V[x], k) <==> Bit((r % 256) as int, k) && Bit(lo, k))
  {
    hide Step, NextRng, Or8, And8, Xor8, Bit, RngByte;
    Fields(hi, lo);
    var ins := Insn(KindOf(hi as int * 256 + lo), hi % 16, lo / 16, lo % 16, lo, hi % 16 * 256 + lo);
    MovesOn(m, hi, lo, ins);
    var r := NextRng(m.d.rng);
    RandomNumbers(r, 0);
    BitwiseAll(RngByte(r), lo);
  }

  // ------------------------------------------------------------------ jumps and skips

  /** Where PC and the call stack go: 1nnn, 2nnn, Bnnn, and 00EE. */
  lemma JumpInsn(m: Machine, hi: Byte, lo: Byte)
    requires Fetches(m, hi, lo)
    ensures var nnn := hi % 16 * 256 + lo;
      && (hi / 16 == 1 ==> Step(m) == Some(m.(pc := nnn)))
      && (hi / 16 == 2 && m.sp < 16 ==> Step(m) == Some(m.(pc := nnn, sp := m.sp + 1, stack := m.stack[m.sp := m.pc + 2])))
      && (hi / 16 == 2 && m.sp >= 16 ==> Step(m) == None)
      && (hi / 16 == 11 ==> Step(m) == Some(m.(pc := nnn + m.d.V[0])))
      && (hi == 0 && lo == 0xEE && 0 < m.sp <= 16 ==> Step(m) == Some(m.(pc := m.stack[m.sp - 1], sp := m.sp - 1)))
      && (hi == 0 && lo == 0xEE && !(0 < m.sp <= 16) ==> Step(m) == None)
  {
    hide Step, ExecData;
    Fields(hi, lo);
    Fetched(m, hi, lo);
    var ins := Insn(KindOf(hi as int * 256 + lo), hi % 16, lo / 16, lo % 16, lo, hi % 16 * 256 + lo);
    if IsJump(ins.kind) { TerminalData(ins, m.d); }
  }

  /** The six conditional skips, by their two bytes; None for an instruction that does not skip. */
  function SkipOf(d: Data, hi: Byte, lo: Byte): Option<bool> {
    var a, b := d.V[hi % 16], d.V[lo / 16];
    if hi / 16 == 3 then Some(a == lo)
    else if hi / 16 == 4 then Some(a != lo)
    else if hi / 16 == 5 && lo % 16 == 0 then Some(a == b)
    else if hi / 16 == 9 && lo % 16 == 0 then Some(a != b)
    else if hi / 16 == 14 && lo == 0x9E then Some(d.keys[a % 16])
    else if hi / 16 == 14 && lo == 0xA1 then Some(!d.keys[a % 16])
    else None
  }

  lemma SkipInsn(m: Machine, hi: Byte, lo: Byte)
    requires Fetches(m, hi, lo) && SkipOf(m.d, hi, lo).Some?
    ensures Step(m) == Some(m.(pc := m.pc + if SkipOf(m.d, hi, lo).value then 4 else 2))
  {
    hide Step, ExecData;
    Fields(hi, lo);
    Fetched(m, hi, lo);
    TerminalData(Insn(KindOf(hi as int * 256 + lo), hi % 16, lo / 16, lo % 16, lo, hi % 16 * 256 + lo), m.d);
  }

  /** Everything else is passed over. */
  lemma UnknownInsn(m: Machine, hi: Byte, lo: Byte)
    requires Fetches(m, hi, lo)
    requires match hi / 16
      case 0 => !(hi == 0 && (lo == 0xE0 || lo == 0xEE))
      case 5 => lo % 16 != 0 case 9 => lo % 16 != 0
      case 8 => 8 <= lo % 16 && lo % 16 != 14
      case 14 => lo !in {0x9E, 0xA1}
      case 15 => lo !in {0x07, 0x0A, 0x15, 0x18, 0x1E, 0x29, 0x33, 0x55, 0x65}
      case _ => false
    ensures Goes(m, m.d)
  {
    hide Goes, AluRegs, MemoryData;
    Fields(hi, lo);
    MovesOn(m, hi, lo, Insn(KindOf(hi as int * 256 + lo), hi % 16, lo / 16, lo % 16, lo, hi % 16 * 256 + lo));
  }

  // ------------------------------------------------------------ timers, I and memory

  /** Annn, Fx1E and Fx29: the index register; Fx07, Fx15 and Fx18: the timers. */
  lemma IndexInsn(m: Machine, hi: Byte, lo: Byte)
    requires Fetches(m, hi, lo)
    ensures var d, x := m.d, hi % 16; var a: int := d.V[x];
      && (hi / 16 == 10 ==> Goes(m, d.(I := hi % 16 * 256 + lo)))
      && (hi / 16 == 15 && lo == 0x1E ==> Goes(m, d.(I := if d.I + a < 4096 then d.I + a else d.I + a - 4096)))
      && (hi / 16 == 15 && lo == 0x29 ==> Goes(m, d.(I := 0x50 + 5 * (a % 16))))
      && (hi / 16 == 15 && lo == 0x07 ==> Goes(m, d.(V := d.V[x := d.delay])))
      && (hi / 16 == 15 && lo == 0x15 ==> Goes(m, d.(delay := a)))
      && (hi / 16 == 15 && lo == 0x18 ==> Goes(m, d.(sound := a)))
  {
    hide Goes, AluRegs, MemoryData;
    Fields(hi, lo);
    var ins := Insn(KindOf(hi as int * 256 + lo), hi % 16, lo / 16, lo % 16, lo, hi % 16 * 256 + lo);
    if hi / 16 == 10 || (hi / 16 == 15 && lo in {0x1E, 0x29, 0x07, 0x15, 0x18}) { MovesOn(m, hi, lo, ins); }
  }

  /** Fx0A stays where it is and waits for a key. */
  lemma KeyInsn(m: Machine, hi: Byte, lo: Byte)
    requires Fetches(m, hi, lo) && hi / 16 == 15 && lo == 0x0A
    ensures Step(m) == Some(m.(d := m.d.(waitKey := true, waitReg := hi % 16)))
  {
    hide Step, ExecData;
    Fields(hi, lo);
    Fetched(m, hi, lo);
    var ins := Insn(LdVxK, hi % 16, lo / 16, lo % 16, lo, hi % 16 * 256 + lo);
    Sequential(ins, m);
    assert ExecData(ins, m.d) == m.d.(waitKey := true, waitReg := hi % 16) by { KeyData(ins, m.d); }
  }

  lemma KeyData(ins: Insn, d: Data)
    requires ins.kind.LdVxK?
    ensures ExecData(ins, d) == d.(waitKey := true, waitReg := ins.x)
  {
    hide AluRegs, MemoryData;
  }

  /** Fx33: three decimal digits, the highest first; past the end of memory there is no such step. */
  lemma DigitsInsn(m: Machine, hi: Byte, lo: Byte)
    requires Fetches(m, hi, lo) && hi / 16 == 15 && lo == 0x33
    ensures Step(m).Some? <==> m.d.I + 2 < 4096
    ensures Step(m).Some? ==> var M, I := Step(m).value.d.mem, m.d.I;
      && Goes(m, m.d.(mem := M)) && (forall a :: 0 <= a < 4096 && !(I <= a <= I + 2) ==> M[a] == m.d.mem[a])
      && M[I] as int * 100 + M[I + 1] as int * 10 + M[I + 2] == m.d.V[hi % 16] && M[I + 1] < 10 && M[I + 2] < 10
  {
    hide Step, AluRegs;
    Fields(hi, lo);
    Fetched(m, hi, lo);
    var ins := Insn(LdBVx, hi % 16, lo / 16, lo % 16, lo, hi % 16 * 256 + lo);
    if m.d.I + 2 < 4096 {
      MovesOn(m, hi, lo, ins);
      Digits(m.d.V[ins.x]);
    }
  }

  lemma Digits(v: Byte)
    ensures v / 100 * 100 + v / 10 % 10 * 10 + v % 10 == v
  {
  }

  /** Fx55: V0 to Vx to memory, wrapping at its end. */
  lemma SaveInsn(m: Machine, hi: Byte, lo: Byte)
    requires Fetches(m, hi, lo) && hi / 16 == 15 && lo == 0x55
    ensures Step(m).Some?
    ensures var d, M, x := m.d, Step(m).value.d.mem, hi % 16;
      && Goes(m, d.(mem := M)) && (forall i :: 0 <= i <= x ==> M[(d.I + i) % 4096] == d.V[i])
      && (forall a :: 0 <= a < 4096 && !(d.I <= a <= d.I + x || d.I <= a + 4096 <= d.I + x) ==> M[a] == d.mem[a])
  {
    hide Step, AluRegs, StoreRegs;
    Fields(hi, lo);
    MovesOn(m, hi, lo, Insn(LdIVx, hi % 16, lo / 16, lo % 16, lo, hi % 16 * 256 + lo));
    Saved(m.d.mem, m.d.V, m.d.I, hi % 16);
  }

  lemma Saved(mem: Memory, V: Regs, I: Addr12, x: Nibble)
    ensures var M := StoreRegs(mem, V, I, x);
      && (forall i :: 0 <= i <= x ==> M[(I + i) % 4096] == V[i])
      && (forall a :: 0 <= a < 4096 && !(I <= a <= I + x || I <= a + 4096 <= I + x) ==> M[a] == mem[a])
  {
    hide OffsetFrom;
    forall i | 0 <= i <= x ensures StoreRegs(mem, V, I, x)[(I + i) % 4096] == V[i] {
      WrapDistance((I + i) % 4096, I, i);
    }
    forall a | 0 <= a < 4096 && !(I <= a <= I + x || I <= a + 4096 <= I + x) ensures OffsetFrom(a, I) > x {
      FarOff(a, I, x);
    }
  }

  lemma FarOff(a: int, i: int, x: int)
    requires 0 <= a < 4096 && 0 <= i < 4096 && !(i <= a <= i + x || i <= a + 4096 <= i + x)
    ensures OffsetFrom(a, i) > x
  {
  }

  /** Fx65: V0 to Vx from memory, wrapping at its end. */
  lemma RestoreInsn(m: Machine, hi: Byte, lo: Byte)
    requires Fetches(m, hi, lo) && hi / 16 == 15 && lo == 0x65
    ensures Step(m).Some?
    ensures var d, V, x := m.d, Step(m).value.d.V, hi % 16;
      && Goes(m, d.(V := V)) && (forall i :: 0 <= i <= x ==> V[i] == d.mem[(d.I + i) % 4096])
      && (forall i :: x < i < 16 ==> V[i] == d.V[i])
  {
    hide Step, AluRegs;
    Fields(hi, lo);
    MovesOn(m, hi, lo, Insn(LdVxI, hi % 16, lo / 16, lo % 16, lo, hi % 16 * 256 + lo));
  }

  // ---------------------------------------------------------------------- the screen

  /** Where column c of row r of a sprite at (V[x], V[y]) lands, 64 pixels a line, wrapping at both edges. */
  function Spot(d: Data, x: Nibble, y: Nibble, r: nat, c: nat): (p: nat)
    ensures p < 2048
  {
    (d.V[y] + r) % 32 * 64 + (d.V[x] + c) % 64
  }

  /** Whether the sprite at I has a pixel there: bit 7 - c of byte r. */
  predicate Pixel(d: Data, r: nat, c: nat)
    requires c < 8
  {
    d.mem[(d.I + r) % 4096] / Weight(7 - c) % 2 == 1
  }

  /** Dxyn: exactly the sprite's pixels flip, and VF tells whether one of them was lit. */
  lemma DrawInsn(m: Machine, hi: Byte, lo: Byte)
    requires Fetches(m, hi, lo) && hi / 16 == 13
    ensures Step(m).Some?
    ensures var d, t, x, y, n := m.d, Step(m).value.d, hi % 16, lo / 16, lo % 16;
      && Goes(m, d.(vram := t.vram, draw := true, V := d.V[15 := t.V[15]]))
      && (forall r: nat, c: nat {:trigger Spot(d, x, y, r, c)} :: r < n && c < 8 ==>
            (t.vram[Spot(d, x, y, r, c)] != d.vram[Spot(d, x, y, r, c)] <==> Pixel(d, r, c)))
      && (forall p :: 0 <= p < 2048 && t.vram[p] != d.vram[p] ==>
            exists r: nat, c: nat :: r < n && c < 8 && p == Spot(d, x, y, r, c) && Pixel(d, r, c))
      && t.V[15] <= 1 && (t.V[15] == 1 <==> exists p :: 0 <= p < 2048 && t.vram[p] != d.vram[p] && d.vram[p])
  {
    hide Step, AluRegs, Covers;
    Fields(hi, lo);
    var d, x, y, n := m.d, hi % 16, lo / 16, lo % 16;
    var ins := Insn(DrwVxVyN, x, y, n, lo, hi % 16 * 256 + lo);
    MovesOn(m, hi, lo, ins);
    var xp, yp := d.V[x] % 64, d.V[y] % 32;
    forall r: nat, c: nat | r < n && c < 8
      ensures Covers(d.mem, d.I, n, xp, yp, Spot(d, x, y, r, c)) <==> Pixel(d, r, c)
    {
      CoversSpot(d, x, y, n, r, c);
    }
    forall p | 0 <= p < 2048 && Covers(d.mem, d.I, n, xp, yp, p)
      ensures exists r: nat, c: nat :: r < n && c < 8 && p == Spot(d, x, y, r, c) && Pixel(d, r, c)
    {
      CoveredSpot(d, x, y, n, p);
    }
  }

  lemma CoversSpot(d: Data, x: Nibble, y: Nibble, n: Nibble, r: nat, c: nat)
    requires r < n && c < 8
    ensures Covers(d.mem, d.I, n, d.V[x] % 64, d.V[y] % 32, Spot(d, x, y, r, c)) <==> Pixel(d, r, c)
  {
    hide SpriteBit, RowOf, ColOf, Weight, PixelIndex, Spot;
    SpriteColumn(d.mem[(d.I + r) % 4096], c);
    SpotIs(d, x, y, r, c);
    PixelAt(d.V[x] % 64, d.V[y] % 32, r, c, Spot(d, x, y, r, c));
  }

  lemma SpotIs(d: Data, x: Nibble, y: Nibble, r: nat, c: nat)
    ensures Spot(d, x, y, r, c) == PixelIndex(d.V[x] % 64, d.V[y] % 32, r, c)
  {
    ModAdd(d.V[y], r, 32);
    ModAdd(d.V[x], c, 64);
  }

  lemma CoveredSpot(d: Data, x: Nibble, y: Nibble, n: Nibble, p: nat)
    requires p < 2048 && Covers(d.mem, d.I, n, d.V[x] % 64, d.V[y] % 32, p)
    ensures var r, c := RowOf(p, d.V[y] % 32), ColOf(p, d.V[x] % 64);
      0 <= r < n && 0 <= c < 8 && p == Spot(d, x, y, r, c) && Pixel(d, r, c)
  {
    hide SpriteBit, RowOf, ColOf, Weight, PixelIndex, Spot;
    var r, c := RowOf(p, d.V[y] % 32), ColOf(p, d.V[x] % 64);
    RowColRange(p, d.V[x] % 64, d.V[y] % 32);
    SpotIs(d, x, y, r, c);
    SpriteColumn(d.mem[(d.I + r) % 4096], c);
    PixelAt(d.V[x] % 64, d.V[y] % 32, r, c, p);
  }

  lemma RowColRange(p: int, xp: int, yp: int)
    ensures 0 <= RowOf(p, yp) && 0 <= ColOf(p, xp)
  {
  }

  /** 00E0: every pixel off. */
  lemma ClearInsn(m: Machine)
    requires Fetches(m, 0, 0xE0)
    ensures Step(m).Some? && Goes(m, m.d.(vram := Step(m).value.d.vram, draw := true))
    ensures forall p :: 0 <= p < 2048 ==> !Step(m).value.d.vram[p]
  {
    hide Step, AluRegs, DrawVram, DrawCollides;
    Fields(0, 0xE0);
    MovesOn(m, 0, 0xE0, Insn(Cls, 0, 14, 0, 0xE0, 0xE0));
  }

  /** Past the end of memory there is no step. */
  lemma NoFetch(m: Machine)
    requires m.pc + 1 >= 4096
    ensures Step(m) == None
  {
  }
}
