/** The CHIP-8 core: machine state, decoder and executor (cpu/chip8). */
module Chip8 {
  import opened Runs

  type Byte = x: int | 0 <= x < 256
  type Nibble = x: int | 0 <= x < 16
  type Word = x: int | 0 <= x < 65536
  type Addr12 = x: int | 0 <= x < 4096

  type Regs = s: seq<Byte> | |s| == 16 witness seq(16, i => 0)
  type Keypad = s: seq<bool> | |s| == 16 witness seq(16, i => false)
  type Memory = s: seq<Byte> | |s| == 4096 witness seq(4096, i => 0)
  type Screen = s: seq<bool> | |s| == 2048 witness seq(2048, i => false)
  type CallStack = s: seq<Word> | |s| == 16 witness seq(16, i => 0)

  const FONT_BASE := 0x50

  datatype Kind =
    | Cls | Ret | JpNnn | CallNnn | JpV0Nnn
    | SeVxKk | SneVxKk | SeVxVy | SneVxVy | SkpVx | SknpVx
    | LdVxKk | AddVxKk | LdVxVy | OrVxVy | AndVxVy | XorVxVy
    | AddVxVy | SubVxVy | SubnVxVy | ShrVx | ShlVx
    | LdINnn | AddIVx | LdFVx | LdBVx | LdIVx | LdVxI
    | DrwVxVyN | LdVxDt | LdDtVx | LdStVx | RndVxKk | LdVxK | Invalid

  datatype Insn = Insn(kind: Kind, x: Nibble, y: Nibble, n: Nibble, kk: Byte, nnn: Addr12)

  /** Everything but the program counter and the call stack. */
  datatype Data = Data(V: Regs, I: Addr12, delay: Byte, sound: Byte, mem: Memory, vram: Screen,
                       draw: bool, keys: Keypad, waitKey: bool, waitReg: Nibble, rng: bv32)

  datatype Machine = Machine(pc: Word, sp: nat, stack: CallStack, d: Data)

  // ---------------------------------------------------------------- decoder

  function KindOf(op: Word): Kind {
    var n, kk := op % 16, op % 256;
    match op / 4096
    case 0 => if op == 0x00E0 then Cls else if op == 0x00EE then Ret else Invalid
    case 1 => JpNnn
    case 2 => CallNnn
    case 3 => SeVxKk
    case 4 => SneVxKk
    case 5 => if n == 0 then SeVxVy else Invalid
    case 6 => LdVxKk
    case 7 => AddVxKk
    case 8 => (match n
      case 0 => LdVxVy case 1 => OrVxVy case 2 => AndVxVy case 3 => XorVxVy
      case 4 => AddVxVy case 5 => SubVxVy case 6 => ShrVx case 7 => SubnVxVy
      case 14 => ShlVx case _ => Invalid)
    case 9 => if n == 0 then SneVxVy else Invalid
    case 10 => LdINnn
    case 11 => JpV0Nnn
    case 12 => RndVxKk
    case 13 => DrwVxVyN
    case 14 => if kk == 0x9E then SkpVx else if kk == 0xA1 then SknpVx else Invalid
    case _ => (match kk
      case 0x07 => LdVxDt case 0x0A => LdVxK case 0x15 => LdDtVx case 0x18 => LdStVx
      case 0x1E => AddIVx case 0x29 => LdFVx case 0x33 => LdBVx case 0x55 => LdIVx
      case 0x65 => LdVxI case _ => Invalid)
  }

  function Decode(op: Word): Insn {
    Insn(KindOf(op), op / 256 % 16, op / 16 % 16, op % 16, op % 256, op % 4096)
  }

  predicate IsTerminal(k: Kind) {
    k.Ret? || k.JpNnn? || k.CallNnn? || k.JpV0Nnn? || k.SeVxKk? || k.SneVxKk? ||
    k.SeVxVy? || k.SneVxVy? || k.SkpVx? || k.SknpVx? || k.LdVxK?
  }

  predicate IsAlu(k: Kind) {
    k.LdVxKk? || k.AddVxKk? || k.LdVxVy? || k.OrVxVy? || k.AndVxVy? || k.XorVxVy? ||
    k.AddVxVy? || k.SubVxVy? || k.SubnVxVy? || k.ShrVx? || k.ShlVx?
  }

  predicate UsesMemory(k: Kind) { k.Cls? || k.LdBVx? || k.LdIVx? || k.LdVxI? || k.DrwVxVyN? }

  // ------------------------------------------------------------ arithmetic

  function Or8(a: Byte, b: Byte): Byte { ((a as bv8) | (b as bv8)) as int }
  function And8(a: Byte, b: Byte): Byte { ((a as bv8) & (b as bv8)) as int }
  function Xor8(a: Byte, b: Byte): Byte { ((a as bv8) ^ (b as bv8)) as int }

  function Up13(r: bv32): bv32 { r ^ (r << 13) }
  function Down17(r: bv32): bv32 { r ^ (r >> 17) }
  function Up5(r: bv32): bv32 { r ^ (r << 5) }

  /** One xorshift32 step of the executor's random generator. */
  function NextRng(r: bv32): bv32 { Up5(Down17(Up13(r))) }

  function RngByte(r: bv32): Byte { (r & 0xFF) as int }

  /** Sets Vx, then VF: the flag wins when x is 15. */
  function SetWithFlag(V: Regs, x: Nibble, v: Byte, flag: bool): Regs {
    V[x := v][15 := if flag then 1 else 0]
  }

  // --------------------------------------------------------------- sprites

  /** Column col (0 = leftmost) of a sprite row. */
  predicate SpriteBit(row: Byte, col: int)
    requires 0 <= col < 8
  {
    (row as bv8) & ((0x80 as bv8) >> col) != 0
  }

  function RowOf(idx: int, yp: int): int { (idx / 64 - yp) % 32 }
  function ColOf(idx: int, xp: int): int { (idx % 64 - xp) % 64 }

  /** Whether an n-row sprite at I, placed at (xp, yp) with wrap-around, covers pixel idx. */
  predicate Covers(mem: Memory, I: Addr12, n: Nibble, xp: int, yp: int, idx: int) {
    var r, c := RowOf(idx, yp), ColOf(idx, xp);
    r < n && c < 8 && SpriteBit(mem[(I + r) % 4096], c)
  }

  function DrawVram(d: Data, x: Nibble, y: Nibble, n: Nibble): Screen {
    var xp, yp := d.V[x] % 64, d.V[y] % 32;
    seq(2048, i requires 0 <= i < 2048 => d.vram[i] != Covers(d.mem, d.I, n, xp, yp, i))
  }

  predicate DrawCollides(d: Data, x: Nibble, y: Nibble, n: Nibble) {
    var xp, yp := d.V[x] % 64, d.V[y] % 32;
    exists i :: 0 <= i < 2048 && Covers(d.mem, d.I, n, xp, yp, i) && d.vram[i]
  }

  // ------------------------------------------------------- register blocks

  function OffsetFrom(a: int, i: int): int { (a - i) % 4096 }

  /** V0..Vx stored from I on, wrapping at the end of memory. */
  function StoreRegs(mem: Memory, V: Regs, I: Addr12, x: Nibble): Memory {
    seq(4096, a requires 0 <= a < 4096 => if OffsetFrom(a, I) <= x then V[OffsetFrom(a, I)] else mem[a])
  }

  function LoadRegs(mem: Memory, V: Regs, I: Addr12, x: Nibble): Regs {
    seq(16, i requires 0 <= i < 16 => if i <= x then mem[(I + i) % 4096] else V[i])
  }

  function StoreBcd(mem: Memory, I: Addr12, v: Byte): Memory
    requires I + 2 < 4096
  {
    mem[I := v / 100][I + 1 := v / 10 % 10][I + 2 := v % 10]
  }

  // -------------------------------------------------------------- executor

  /** The accesses the executor leaves unchecked. */
  predicate ExecOk(ins: Insn, m: Machine) {
    && (ins.kind.Ret? ==> 0 < m.sp <= 16)
    && (ins.kind.CallNnn? ==> m.sp < 16)
    && (ins.kind.LdBVx? ==> m.d.I + 2 < 4096)
  }

  predicate SetsFlag(k: Kind) {
    k.AddVxVy? || k.SubVxVy? || k.SubnVxVy? || k.ShrVx? || k.ShlVx?
  }

  /** What a register load or arithmetic instruction leaves in Vx, ... */
  function AluValue(ins: Insn, vx: Byte, vy: Byte): Byte {
    match ins.kind
    case LdVxKk => ins.kk
    case AddVxKk => (vx as int + ins.kk) % 256
    case LdVxVy => vy
    case OrVxVy => Or8(vx, vy)
    case AndVxVy => And8(vx, vy)
    case XorVxVy => Xor8(vx, vy)
    case AddVxVy => (vx as int + vy) % 256
    case SubVxVy => (vx as int - vy) % 256
    case SubnVxVy => (vy as int - vx) % 256
    case ShrVx => vx / 2
    case _ => vx as int * 2 % 256
  }

  /** ... and in VF, if it sets it. */
  function AluFlag(k: Kind, vx: Byte, vy: Byte): bool {
    match k
    case AddVxVy => vx as int + vy > 255
    case SubVxVy => vx >= vy
    case SubnVxVy => vy >= vx
    case ShrVx => vx % 2 == 1
    case _ => vx >= 128
  }

  function AluRegs(ins: Insn, V: Regs): Regs {
    var v := AluValue(ins, V[ins.x], V[ins.y]);
    if SetsFlag(ins.kind) then SetWithFlag(V, ins.x, v, AluFlag(ins.kind, V[ins.x], V[ins.y])) else V[ins.x := v]
  }

  function MemoryData(ins: Insn, d: Data): Data
    requires ins.kind.LdBVx? ==> d.I + 2 < 4096
  {
    match ins.kind
    case Cls => d.(vram := seq(2048, i => false), draw := true)
    case LdBVx => d.(mem := StoreBcd(d.mem, d.I, d.V[ins.x]))
    case LdIVx => d.(mem := StoreRegs(d.mem, d.V, d.I, ins.x))
    case LdVxI => d.(V := LoadRegs(d.mem, d.V, d.I, ins.x))
    case _ => d.(vram := DrawVram(d, ins.x, ins.y, ins.n), draw := true,
                 V := d.V[15 := if DrawCollides(d, ins.x, ins.y, ins.n) then 1 else 0])
  }

  function OtherData(ins: Insn, d: Data): Data {
    var vx := d.V[ins.x];
    match ins.kind
    case LdINnn => d.(I := ins.nnn)
    case AddIVx => d.(I := (d.I + vx) % 4096)
    case LdFVx => d.(I := FONT_BASE + vx % 16 * 5)
    case LdVxDt => d.(V := d.V[ins.x := d.delay])
    case LdDtVx => d.(delay := vx)
    case LdStVx => d.(sound := vx)
    case RndVxKk => var r := NextRng(d.rng); d.(rng := r, V := d.V[ins.x := And8(RngByte(r), ins.kk)])
    case LdVxK => d.(waitKey := true, waitReg := ins.x)
    case _ => d
  }

  /** The effect of an instruction on registers, memory, screen and timers. */
  function ExecData(ins: Insn, d: Data): Data
    requires ins.kind.LdBVx? ==> d.I + 2 < 4096
  {
    if IsAlu(ins.kind) then d.(V := AluRegs(ins, d.V))
    else if UsesMemory(ins.kind) then MemoryData(ins, d)
    else OtherData(ins, d)
  }

  /** Results and flags together lose nothing: a carry, a borrow or a bit shifted out is in VF, which is
      written last, so that VF as the target keeps the flag; and no other register changes. */
  lemma AluArithmetic(ins: Insn, V: Regs)
    requires SetsFlag(ins.kind)
    ensures var x, vx, vy := ins.x, V[ins.x] as int, V[ins.y] as int; var W := AluRegs(ins, V); var f := W[15] as int;
      && 0 <= f <= 1 && (forall i :: 0 <= i < 15 && i != x ==> W[i] == V[i])
      && (x != 15 ==> Exact(ins.kind, vx, vy, W[x] as int, f))
      && (x == 15 ==> exists w :: 0 <= w < 256 && Exact(ins.kind, vx, vy, w, f))
  {
    hide AluValue, AluFlag, Exact;
    ValueAndFlag(ins, V[ins.x], V[ins.y]);
    assert 0 <= AluValue(ins, V[ins.x], V[ins.y]) as int < 256;
  }

  /** The old values, from the new one and the flag. */
  predicate Exact(k: Kind, vx: int, vy: int, w: int, f: int) {
    && (k.AddVxVy? ==> w + 256 * f == vx + vy)
    && (k.SubVxVy? ==> vy + w == vx + 256 * (1 - f))
    && (k.SubnVxVy? ==> vx + w == vy + 256 * (1 - f))
    && (k.ShrVx? ==> 2 * w + f == vx)
    && (k.ShlVx? ==> w + 256 * f == 2 * vx)
  }

  lemma ValueAndFlag(ins: Insn, vx: Byte, vy: Byte)
    requires SetsFlag(ins.kind)
    ensures Exact(ins.kind, vx as int, vy as int, AluValue(ins, vx, vy) as int, if AluFlag(ins.kind, vx, vy) then 1 else 0)
  {
    hide Or8, And8, Xor8;
    Halves(vx);
    Doubled(vx);
    Wrapped(vx as int + vy);
    Wrapped(vx as int - vy);
    Wrapped(vy as int - vx);
  }

  lemma Halves(v: Byte)
    ensures 2 * (v / 2) + v % 2 == v
  {
  }

  lemma Doubled(v: Byte)
    ensures v as int * 2 % 256 == v as int * 2 - if v >= 128 then 256 else 0
  {
  }

  lemma Wrapped(n: int)
    requires -256 < n < 512
    ensures n % 256 == if n < 0 then n + 256 else if n < 256 then n else n - 256
  {
  }

  /** Whether a conditional-skip instruction skips. */
  predicate Skips(ins: Insn, d: Data) {
    var vx, vy := d.V[ins.x], d.V[ins.y];
    match ins.kind
    case SeVxKk => vx == ins.kk
    case SneVxKk => vx != ins.kk
    case SeVxVy => vx == vy
    case SneVxVy => vx != vy
    case SkpVx => d.keys[vx % 16]
    case SknpVx => !d.keys[vx % 16]
    case _ => false
  }

  function NextPc(ins: Insn, m: Machine): Word
    requires ExecOk(ins, m)
  {
    match ins.kind
    case Ret => m.stack[m.sp - 1]
    case JpNnn => ins.nnn
    case CallNnn => ins.nnn
    case JpV0Nnn => ins.nnn + m.d.V[0]
    case LdVxK => m.pc
    case _ => if Skips(ins, m.d) then (m.pc + 4) % 65536 else (m.pc + 2) % 65536
  }

  function Exec(ins: Insn, m: Machine): Machine
    requires ExecOk(ins, m)
  {
    Machine(NextPc(ins, m),
            if ins.kind.Ret? then m.sp - 1 else if ins.kind.CallNnn? then m.sp + 1 else m.sp,
            if ins.kind.CallNnn? then m.stack[m.sp := (m.pc + 2) % 65536] else m.stack,
            ExecData(ins, m.d))
  }

  /** What the instructions that move a timer do. */
  function TimerData(k: Kind, x: Nibble, d: Data): Data {
    if k.LdDtVx? then d.(delay := d.V[x])
    else if k.LdStVx? then d.(sound := d.V[x])
    else d.(V := d.V[x := d.delay])
  }

  lemma TimerExec(ins: Insn, d: Data)
    requires ins.kind.LdDtVx? || ins.kind.LdStVx? || ins.kind.LdVxDt?
    ensures ExecData(ins, d) == TimerData(ins.kind, ins.x, d)
  {
    hide AluRegs, MemoryData;
  }

  predicate IsJump(k: Kind) { k.Ret? || k.JpNnn? || k.CallNnn? || k.JpV0Nnn? }

  /** Control instructions leave the data alone, the others the call stack. */
  lemma TerminalData(ins: Insn, d: Data)
    requires IsTerminal(ins.kind) && !ins.kind.LdVxK?
    ensures ExecData(ins, d) == d && !ins.kind.LdBVx?
  {
    hide AluRegs, MemoryData;
  }

  lemma Sequential(ins: Insn, m: Machine)
    requires ExecOk(ins, m) && (!IsTerminal(ins.kind) || ins.kind.LdVxK?)
    ensures (ins.kind.LdBVx? ==> m.d.I + 2 < 4096) && (IsAlu(ins.kind) || UsesMemory(ins.kind) ==> !ins.kind.LdVxK?)
    ensures Exec(ins, m) == m.(pc := if ins.kind.LdVxK? then m.pc else (m.pc + 2) % 65536, d := ExecData(ins, m.d))
  {
    hide ExecData;
  }

  // ------------------------------------------------- fetch, decode, execute

  function FetchAt(mem: Memory, a: int): Word
    requires 0 <= a && a + 1 < 4096
  {
    var hi: int, lo: int := mem[a], mem[a + 1];
    hi * 256 + lo
  }

  /** One instruction from memory; None past the end of memory or on an unchecked access. */
  function Step(m: Machine): Option<Machine> {
    if m.pc + 1 >= 4096 then None
    else
      var ins := Decode(FetchAt(m.d.mem, m.pc));
      if ExecOk(ins, m) then Some(Exec(ins, m)) else None
  }

  function Steps(m: Machine, k: nat): Option<Machine> {
    Iterate(Step, m, k)
  }

  // ------------------------------------------------------ drawing, in place

  function PixelIndex(xp: int, yp: int, row: int, col: int): (idx: int)
    ensures 0 <= idx < 2048
  {
    (yp + row) % 32 * 64 + (xp + col) % 64
  }

  /** Each (row, col) of a sprite lands on exactly one pixel. */
  lemma PixelAt(xp: int, yp: int, row: int, col: int, idx: int)
    requires 0 <= xp < 64 && 0 <= yp < 32 && 0 <= row < 32 && 0 <= col < 64 && 0 <= idx < 2048
    ensures (RowOf(idx, yp) == row && ColOf(idx, xp) == col) <==> idx == PixelIndex(xp, yp, row, col)
  {
    var py, px := idx / 64, idx % 64;
    assert idx == py * 64 + px && 0 <= py < 32;
    var qy, qx := (yp + row) % 32, (xp + col) % 64;
    assert qy == yp + row || qy == yp + row - 32;
    assert qx == xp + col || qx == xp + col - 64;
    assert RowOf(idx, yp) == py - yp || RowOf(idx, yp) == py - yp + 32;
    assert ColOf(idx, xp) == px - xp || ColOf(idx, xp) == px - xp + 64;
  }

  /** The part of a sprite drawn once rows before row, and row's columns before col, are done. */
  predicate CoversUpTo(mem: Memory, I: Addr12, n: Nibble, xp: int, yp: int, row: int, col: int, idx: int) {
    Covers(mem, I, n, xp, yp, idx) &&
    (RowOf(idx, yp) < row || (RowOf(idx, yp) == row && ColOf(idx, xp) < col))
  }

  lemma CoversNextColumn(mem: Memory, I: Addr12, n: Nibble, xp: int, yp: int, row: int, col: int)
    requires 0 <= xp < 64 && 0 <= yp < 32 && 0 <= row < n && 0 <= col < 8
    ensures forall i :: 0 <= i < 2048 ==>
      CoversUpTo(mem, I, n, xp, yp, row, col + 1, i) ==
      if i == PixelIndex(xp, yp, row, col) then SpriteBit(mem[(I + row) % 4096], col)
      else CoversUpTo(mem, I, n, xp, yp, row, col, i)
    ensures !CoversUpTo(mem, I, n, xp, yp, row, col, PixelIndex(xp, yp, row, col))
  {
    hide SpriteBit, RowOf, ColOf, PixelIndex;
    forall i | 0 <= i < 2048
      ensures CoversUpTo(mem, I, n, xp, yp, row, col + 1, i) ==
        if i == PixelIndex(xp, yp, row, col) then SpriteBit(mem[(I + row) % 4096], col)
        else CoversUpTo(mem, I, n, xp, yp, row, col, i)
    {
      PixelAt(xp, yp, row, col, i);
    }
    PixelAt(xp, yp, row, col, PixelIndex(xp, yp, row, col));
  }

  /** The screen, and the collision flag, when drawing has got as far as (row, col). */
  function DrawnUpTo(d: Data, n: Nibble, xp: int, yp: int, row: int, col: int): Screen {
    seq(2048, i requires 0 <= i < 2048 => d.vram[i] != CoversUpTo(d.mem, d.I, n, xp, yp, row, col, i))
  }

  ghost predicate CollidedUpTo(d: Data, n: Nibble, xp: int, yp: int, row: int, col: int) {
    exists i :: 0 <= i < 2048 && CoversUpTo(d.mem, d.I, n, xp, yp, row, col, i) && d.vram[i]
  }

  lemma DrawnNextColumn(d: Data, n: Nibble, xp: int, yp: int, row: int, col: int)
    requires 0 <= xp < 64 && 0 <= yp < 32 && 0 <= row < n && 0 <= col < 8
    ensures var idx := PixelIndex(xp, yp, row, col);
      var lit := SpriteBit(d.mem[(d.I + row) % 4096], col);
      && DrawnUpTo(d, n, xp, yp, row, col)[idx] == d.vram[idx]
      && DrawnUpTo(d, n, xp, yp, row, col + 1) ==
         DrawnUpTo(d, n, xp, yp, row, col)[idx := d.vram[idx] != lit]
      && (CollidedUpTo(d, n, xp, yp, row, col + 1) <==>
          CollidedUpTo(d, n, xp, yp, row, col) || (lit && d.vram[idx]))
  {
    hide SpriteBit, CoversUpTo, PixelIndex;
    CoversNextColumn(d.mem, d.I, n, xp, yp, row, col);
    var idx := PixelIndex(xp, yp, row, col);
    assert CoversUpTo(d.mem, d.I, n, xp, yp, row, col + 1, idx) == SpriteBit(d.mem[(d.I + row) % 4096], col);
  }

  lemma DrawnNextRow(d: Data, n: Nibble, xp: int, yp: int, row: int)
    ensures DrawnUpTo(d, n, xp, yp, row, 8) == DrawnUpTo(d, n, xp, yp, row + 1, 0)
    ensures CollidedUpTo(d, n, xp, yp, row, 8) <==> CollidedUpTo(d, n, xp, yp, row + 1, 0)
  {
    hide SpriteBit, RowOf, CoversUpTo;
    forall i | 0 <= i < 2048
      ensures CoversUpTo(d.mem, d.I, n, xp, yp, row, 8, i) == CoversUpTo(d.mem, d.I, n, xp, yp, row + 1, 0, i)
    {
      CoversNextRow(d.mem, d.I, n, xp, yp, row, i);
    }
  }

  lemma CoversNextRow(mem: Memory, I: Addr12, n: Nibble, xp: int, yp: int, row: int, i: int)
    ensures CoversUpTo(mem, I, n, xp, yp, row, 8, i) == CoversUpTo(mem, I, n, xp, yp, row + 1, 0, i)
  {
    hide SpriteBit, RowOf;
  }

  lemma DrawnAll(d: Data, x: Nibble, y: Nibble, n: Nibble)
    ensures DrawnUpTo(d, n, d.V[x] % 64, d.V[y] % 32, 0, 0) == d.vram
    ensures !CollidedUpTo(d, n, d.V[x] % 64, d.V[y] % 32, 0, 0)
    ensures DrawnUpTo(d, n, d.V[x] % 64, d.V[y] % 32, n, 0) == DrawVram(d, x, y, n)
    ensures CollidedUpTo(d, n, d.V[x] % 64, d.V[y] % 32, n, 0) <==> DrawCollides(d, x, y, n)
  {
    hide SpriteBit;
    var xp, yp := d.V[x] % 64, d.V[y] % 32;
    forall i | 0 <= i < 2048
      ensures CoversUpTo(d.mem, d.I, n, xp, yp, n, 0, i) == Covers(d.mem, d.I, n, xp, yp, i)
      ensures !CoversUpTo(d.mem, d.I, n, xp, yp, 0, 0, i)
    {
    }
  }

  lemma WrapDistance(a: int, i: int, k: int)
    requires 0 <= a < 4096 && 0 <= i < 4096 && 0 <= k < 4096
    ensures OffsetFrom(a, i) == k <==> a == (i + k) % 4096
  {
  }

  /** The emulated machine, updated in place. */
  class Chip8State {
    const V: array<Byte>
    const stack: array<Word>
    const mem: array<Byte>
    const vram: array<bool>
    const keys: array<bool>
    var I: Addr12
    var PC: Word
    var SP: nat
    var delay: Byte
    var sound: Byte
    var drawFlag: bool
    var waitKey: bool
    var waitReg: Nibble
    var rng: bv32
    var insnCount: nat

    ghost const Repr: set<object> := {this, V, stack, mem, vram, keys}

    ghost predicate Valid() reads this {
      && V.Length == 16 && stack.Length == 16 && mem.Length == 4096
      && vram.Length == 2048 && keys.Length == 16 && V != mem
      && vram != keys
      && (stack as object) != V && (stack as object) != mem
    }

    ghost function DataOf(): Data
      requires Valid()
      reads Repr
    {
      Data(V[..], I, delay, sound, mem[..], vram[..], drawFlag, keys[..], waitKey, waitReg, rng)
    }

    /** The abstract machine this object holds. */
    ghost function Abs(): Machine
      requires Valid()
      reads Repr
    {
      Machine(PC, SP, stack[..], DataOf())
    }

    constructor ()
      ensures Valid() && fresh(Repr)
      ensures Abs() == Machine(0x200, 0, seq(16, i => 0),
                Data(seq(16, i => 0), 0, 0, 0, seq(4096, i => 0), seq(2048, i => false), false,
                     seq(16, i => false), false, 0, 0xDEADBEEF))
    {
      V := new Byte[16](i => 0);
      stack := new Word[16](i => 0);
      mem := new Byte[4096](i => 0);
      vram := new bool[2048](i => false);
      keys := new bool[16](i => false);
      I, PC, SP, delay, sound := 0, 0x200, 0, 0, 0;
      drawFlag, waitKey, waitReg, rng, insnCount := false, false, 0, 0xDEADBEEF, 0;
    }

    method ClearScreen()
      requires Valid()
      modifies vram
      ensures vram[..] == seq(2048, i => false)
    {
      for i := 0 to 2048
        invariant forall j :: 0 <= j < i ==> !vram[j]
      {
        vram[i] := false;
      }
    }

    /** Draws row by row, bit by bit, toggling pixels and collecting collisions. */
    method Draw(x: Nibble, y: Nibble, n: Nibble)
      requires Valid()
      modifies V, vram
      ensures vram[..] == old(DrawVram(DataOf(), x, y, n))
      ensures V[..] == old(V[..])[15 := if old(DrawCollides(DataOf(), x, y, n)) then 1 else 0]
    {
      hide SpriteBit, CoversUpTo, Covers, DrawnUpTo, CollidedUpTo, DrawVram, DrawCollides;
      ghost var d := DataOf();
      var xp, yp := V[x] % 64, V[y] % 32;
      var vf := false;
      DrawnAll(d, x, y, n);
      for row := 0 to n
        invariant V[..] == d.V && mem[..] == d.mem && I == d.I
        invariant vram[..] == DrawnUpTo(d, n, xp, yp, row, 0)
        invariant vf <==> CollidedUpTo(d, n, xp, yp, row, 0)
      {
        var sprite := mem[(I + row) % 4096];
        var py := (yp + row) % 32;
        for col := 0 to 8
          invariant V[..] == d.V && mem[..] == d.mem && I == d.I
          invariant vram[..] == DrawnUpTo(d, n, xp, yp, row, col)
          invariant vf <==> CollidedUpTo(d, n, xp, yp, row, col)
        {
          DrawnNextColumn(d, n, xp, yp, row, col);
          if SpriteBit(sprite, col) {
            var px := (xp + col) % 64;
            var idx := py * 64 + px;
            assert idx == PixelIndex(xp, yp, row, col);
            assert vram[idx] == vram[..][idx] == d.vram[idx];
            vf := vf || vram[idx];
            vram[idx] := !vram[idx];
          }
        }
        DrawnNextRow(d, n, xp, yp, row);
      }
      V[15] := if vf then 1 else 0;
    }

    method SaveRegs(x: Nibble)
      requires Valid()
      modifies mem
      ensures mem[..] == StoreRegs(old(mem[..]), V[..], I, x)
    {
      for i := 0 to x + 1
        invariant forall a :: 0 <= a < 4096 ==>
          mem[a] == if OffsetFrom(a, I) < i then V[OffsetFrom(a, I)] else old(mem[a])
      {
        forall a | 0 <= a < 4096 ensures OffsetFrom(a, I) == i <==> a == (I + i) % 4096 {
          WrapDistance(a, I, i);
        }
        mem[(I + i) % 4096] := V[i];
      }
    }

    method RestoreRegs(x: Nibble)
      requires Valid()
      modifies V
      ensures V[..] == LoadRegs(mem[..], old(V[..]), I, x)
    {
      for i := 0 to x + 1
        invariant forall j :: 0 <= j < 16 ==> V[j] == if j < i then mem[(I + j) % 4096] else old(V[j])
      {
        V[i] := mem[(I + i) % 4096];
      }
    }

    method SetReg(x: Nibble, v: Byte)
      requires Valid()
      modifies V
      ensures V[..] == old(V[..])[x := v]
    {
      V[x] := v;
    }

    method SaveDigits(v: Byte)
      requires Valid() && I + 2 < 4096
      modifies mem
      ensures mem[..] == StoreBcd(old(mem[..]), I, v)
    {
      mem[I] := v / 100;
      mem[I + 1] := v / 10 % 10;
      mem[I + 2] := v % 10;
    }

    method SetFlagged(x: Nibble, v: Byte, flag: bool)
      requires Valid()
      modifies V
      ensures V[..] == SetWithFlag(old(V[..]), x, v, flag)
    {
      V[x] := v;
      V[15] := if flag then 1 else 0;
    }

    /** Jumps, calls and conditional skips: only PC and the call stack change. */
    method ExecControl(ins: Insn)
      requires Valid() && ExecOk(ins, Abs()) && IsTerminal(ins.kind) && !ins.kind.LdVxK?
      modifies this`PC, this`SP, stack
      ensures Abs() == Exec(ins, old(Abs()))
    {
      hide ExecData;
      TerminalData(ins, DataOf());
      if IsJump(ins.kind) { ExecJump(ins); } else { ExecSkip(ins); }
    }

    method ExecJump(ins: Insn)
      requires Valid() && ExecOk(ins, Abs()) && IsJump(ins.kind)
      modifies this`PC, this`SP, stack
      ensures Abs() == Exec(ins, old(Abs())).(d := old(DataOf()))
    {
      hide ExecData;
      match ins.kind {
        case Ret => SP := SP - 1; PC := stack[SP];
        case JpNnn => PC := ins.nnn;
        case CallNnn => stack[SP] := (PC + 2) % 65536; SP := SP + 1; PC := ins.nnn;
        case JpV0Nnn => PC := ins.nnn + V[0];
      }
    }

    method ExecSkip(ins: Insn)
      requires Valid() && IsTerminal(ins.kind) && !ins.kind.LdVxK? && !IsJump(ins.kind)
      modifies this`PC
      ensures Abs() == old(Abs()).(pc := (old(PC) + if Skips(ins, old(DataOf())) then 4 else 2) % 65536)
    {
      var vx, vy := V[ins.x], V[ins.y];
      var next, skip := (PC + 2) % 65536, (PC + 4) % 65536;
      match ins.kind {
        case SeVxKk => PC := if vx == ins.kk then skip else next;
        case SneVxKk => PC := if vx != ins.kk then skip else next;
        case SeVxVy => PC := if vx == vy then skip else next;
        case SneVxVy => PC := if vx != vy then skip else next;
        case SkpVx => PC := if keys[vx % 16] then skip else next;
        case SknpVx => PC := if keys[vx % 16] then next else skip;
      }
    }

    /** Register loads and arithmetic: the new contents of V. */
    method ExecAlu(ins: Insn)
      requires Valid() && IsAlu(ins.kind)
      modifies V
      ensures DataOf() == ExecData(ins, old(DataOf()))
    {
      hide AluValue, AluFlag, SetWithFlag, SetsFlag;
      var v, flag := Alu(ins, V[ins.x], V[ins.y]);
      if SetsFlag(ins.kind) {
        SetFlagged(ins.x, v, flag);
      } else {
        V[ins.x] := v;
      }
    }

    method Alu(ins: Insn, vx: Byte, vy: Byte) returns (v: Byte, flag: bool)
      requires IsAlu(ins.kind)
      ensures v == AluValue(ins, vx, vy) && (SetsFlag(ins.kind) ==> flag == AluFlag(ins.kind, vx, vy))
    {
      hide Or8, And8, Xor8;
      var a: int, b: int, r: int := vx, vy, vx;
      flag := false;
      match ins.kind {
        case LdVxKk => r := ins.kk;
        case AddVxKk => r := (a + ins.kk) % 256;
        case LdVxVy => r := b;
        case OrVxVy => r := Or8(vx, vy);
        case AndVxVy => r := And8(vx, vy);
        case XorVxVy => r := Xor8(vx, vy);
        case AddVxVy => r, flag := (a + b) % 256, a + b > 255;
        case SubVxVy => r, flag := (a - b) % 256, a >= b;
        case SubnVxVy => r, flag := (b - a) % 256, b >= a;
        case ShrVx => r, flag := a / 2, a % 2 == 1;
        case ShlVx => r, flag := a * 2 % 256, a >= 128;
      }
      v := r;
    }

    /** Memory and display instructions. */
    method ExecMemory(ins: Insn)
      requires Valid() && UsesMemory(ins.kind)
      requires ins.kind.LdBVx? ==> I + 2 < 4096
      modifies this`drawFlag, V, mem, vram
      ensures DataOf() == ExecData(ins, old(DataOf()))
    {
      hide DrawVram, DrawCollides, StoreRegs, LoadRegs, StoreBcd, OtherData, AluRegs;
      if ins.kind.Cls? { ClearScreen(); drawFlag := true; }
      else if ins.kind.LdBVx? { SaveDigits(V[ins.x]); }
      else if ins.kind.LdIVx? { SaveRegs(ins.x); }
      else if ins.kind.LdVxI? { RestoreRegs(ins.x); }
      else { Draw(ins.x, ins.y, ins.n); drawFlag := true; }
    }

    /** The index register, timers, random numbers and the key wait. */
    method ExecOther(ins: Insn)
      requires Valid() && !IsAlu(ins.kind) && !UsesMemory(ins.kind) && (!IsTerminal(ins.kind) || ins.kind.LdVxK?)
      modifies this`I, this`delay, this`sound, this`waitKey, this`waitReg, this`rng, V
      ensures DataOf() == ExecData(ins, old(DataOf()))
    {
      hide And8, NextRng, RngByte, MemoryData, AluRegs;
      if ins.kind.LdVxDt? || ins.kind.LdDtVx? || ins.kind.LdStVx? {
        ExecTimer(ins);
        return;
      }
      var vx := V[ins.x];
      match ins.kind {
        case LdINnn => I := ins.nnn;
        case AddIVx => I := (I + vx) % 4096;
        case LdFVx => I := FONT_BASE + vx % 16 * 5;
        case RndVxKk => rng := NextRng(rng); SetReg(ins.x, And8(RngByte(rng), ins.kk));
        case LdVxK => waitKey := true; waitReg := ins.x;
        case Invalid =>
      }
    }

    method ExecTimer(ins: Insn)
      requires Valid() && (ins.kind.LdVxDt? || ins.kind.LdDtVx? || ins.kind.LdStVx?)
      modifies this`delay, this`sound, V
      ensures DataOf() == ExecData(ins, old(DataOf()))
    {
      hide ExecData;
      TimerExec(ins, DataOf());
      if ins.kind.LdVxDt? { SetReg(ins.x, delay); }
      else if ins.kind.LdDtVx? { delay := V[ins.x]; }
      else { sound := V[ins.x]; }
    }

    /** Executes one decoded instruction. */
    method ExecInsn(ins: Insn)
      requires Valid() && ExecOk(ins, Abs())
      modifies this, V, stack, mem, vram
      ensures insnCount == old(insnCount)
      ensures Abs() == Exec(ins, old(Abs()))
    {
      hide ExecData, Exec, IsAlu, UsesMemory, IsTerminal, ExecOk;
      if IsTerminal(ins.kind) && !ins.kind.LdVxK? {
        ExecControl(ins);
        return;
      }
      Sequential(ins, Abs());
      if IsAlu(ins.kind) {
        ExecAlu(ins);
        PC := (PC + 2) % 65536;
      } else if UsesMemory(ins.kind) {
        ExecMemory(ins);
        PC := (PC + 2) % 65536;
      } else {
        ExecOther(ins);
        if !ins.kind.LdVxK? { PC := (PC + 2) % 65536; }
      }
    }

    /** One instruction straight from memory; nothing happens past its end. */
    method ExecSingle()
      requires Valid()
      requires PC + 1 < 4096 ==> Step(Abs()).Some?
      modifies this, V, stack, mem, vram
      ensures Valid()
      ensures Abs() == if old(PC) + 1 >= 4096 then old(Abs()) else Step(old(Abs())).value
    {
      hide KindOf, ExecData, NextPc;
      if PC + 1 >= 4096 { return; }
      assert FetchAt(mem[..], PC) == mem[PC] as int * 256 + mem[PC + 1];
      var hi: int, lo: int := mem[PC], mem[PC + 1];
      var ins := Decode(hi * 256 + lo);
      ExecInsn(ins);
      insnCount := insnCount + 1;
    }
  }
}
