/** The Octo language: statements, and what a correct image of a program is (cpu/chip8/octo.c).
    Statements arrive with their operands looked up: registers as numbers, constants as values. */
module Octo {
  import opened Runs
  import opened Chip8

  const ROM_BASE := 0x200
  const MAX_LABELS := 1024
  const MAX_FWD := 4096
  const STACK_SZ := 64

  datatype Target = Name(name: string) | Num(addr: int)

  datatype Cond =
    | EqReg(x: Nibble, y: Nibble) | NeReg(x: Nibble, y: Nibble)
    | EqVal(x: Nibble, v: int) | NeVal(x: Nibble, v: int)
    | KeyDown(x: Nibble) | KeyUp(x: Nibble)

  datatype Stmt =
    | Label(name: string) | DataByte(v: int) | DataWord(v: int)
    | Loop | Again | IfThen(c: Cond) | IfBegin(c: Cond) | Else | End
    | Return | Call(name: string) | Jump(t: Target) | Jump0(t: Target)
    | Clear | Sprite(x: Nibble, y: Nibble, h: int)
    | ISet(t: Target) | IHex(x: Nibble) | IAdd(x: Nibble)
    | DelaySet(x: Nibble) | BuzzerSet(x: Nibble) | Bcd(x: Nibble) | Load(x: Nibble) | Save(x: Nibble)
    | SetRandom(x: Nibble, mask: int) | SetKey(x: Nibble) | SetDelay(x: Nibble)
    | SetReg(x: Nibble, y: Nibble) | SetVal(x: Nibble, v: int)
    | AddReg(x: Nibble, y: Nibble) | AddVal(x: Nibble, v: int)
    | SubReg(x: Nibble, y: Nibble) | SubVal(x: Nibble, v: int) | RevSub(x: Nibble, y: Nibble)
    | OrReg(x: Nibble, y: Nibble) | AndReg(x: Nibble, y: Nibble) | XorReg(x: Nibble, y: Nibble)

  type Program = seq<Stmt>

  // ------------------------------------------------------------------ layout

  function Size(s: Stmt): (n: nat)
    ensures n <= 4
  {
    match s
    case Label(_) => 0
    case Loop => 0
    case End => 0
    case DataByte(_) => 1
    case IfBegin(_) => 4
    case _ => 2
  }

  /** The address of statement i; of the end of the code when i == |p|. */
  function Addr(p: Program, i: nat): (a: nat)
    requires i <= |p|
    ensures a >= ROM_BASE
  {
    if i == 0 then ROM_BASE else Addr(p, i - 1) + Size(p[i - 1])
  }

  lemma {:induction false} AddrMonotone(p: Program, i: nat, j: nat)
    requires i <= j <= |p|
    ensures Addr(p, i) <= Addr(p, j)
    ensures i < j ==> Addr(p, i) + Size(p[i]) <= Addr(p, j)
    decreases j - i
  {
    if i < j { AddrMonotone(p, i, j - 1); }
  }

  // ------------------------------------------------------- names and matching

  /** The last definition of a label among the first i statements. */
  function LabelBefore(p: Program, i: nat, name: string): (r: Option<nat>)
    requires i <= |p|
    ensures r.Some? ==> r.value < i && p[r.value].Label? && p[r.value].name == name
  {
    if i == 0 then None
    else if p[i - 1].Label? && p[i - 1].name == name then Some(i - 1)
    else LabelBefore(p, i - 1, name)
  }

  /** The definition a reference in statement i means: the last one before it,
      or else the last one in the program. */
  function LabelFor(p: Program, i: nat, name: string): (r: Option<nat>)
    requires i <= |p|
    ensures r.Some? ==> r.value < |p| && p[r.value].Label? && p[r.value].name == name
  {
    if LabelBefore(p, i, name).Some? then LabelBefore(p, i, name) else LabelBefore(p, |p|, name)
  }

  /** Statements that leave a jump to be patched by the next else or end at their own level. */
  predicate Opens(s: Stmt) { s.IfBegin? || s.Else? }

  datatype Scan = Open(depth: nat) | Found(at: nat)

  function NextScan(r: Scan, s: Stmt, at: nat): Scan {
    match r
    case Found(j) => Found(j)
    case Open(d) =>
      match s
      case IfBegin(_) => Open(d + 1)
      case End => if d == 0 then Found(at) else Open(d - 1)
      case Else => if d == 0 then Found(at) else Open(d)
      case _ => Open(d)
  }

  /** Scanning statements i+1 .. k-1 for the else or end that belongs to the opener i. */
  function ScanIf(p: Program, i: nat, k: nat): (r: Scan)
    requires i < k <= |p|
    ensures r.Found? ==> i < r.at < k && (p[r.at].Else? || p[r.at].End?)
    decreases k
  {
    if k == i + 1 then Open(0) else NextScan(ScanIf(p, i, k - 1), p[k - 1], k - 1)
  }

  /** Scanning back from statement k for the loop enclosing it, past d complete ones. */
  function FindLoop(p: Program, k: nat, d: nat): (r: Option<nat>)
    requires k <= |p|
    ensures r.Some? ==> r.value < k && p[r.value].Loop?
    decreases k
  {
    if k == 0 then None
    else match p[k - 1]
      case Again => FindLoop(p, k - 1, d + 1)
      case Loop => if d == 0 then Some(k - 1) else FindLoop(p, k - 1, d - 1)
      case _ => FindLoop(p, k - 1, d)
  }

  // ------------------------------------------------------------ instructions

  function AddrOp(hi: Nibble, addr: int): Word { hi * 4096 + addr % 4096 }
  function OpXY(hi: Nibble, x: Nibble, y: Nibble, n: Nibble): Word { hi * 4096 + x * 256 + y * 16 + n }
  function OpXKk(hi: Nibble, x: Nibble, kk: int): Word { hi * 4096 + x * 256 + kk % 256 }

  /** Executes the next instruction only if c holds. */
  function SkipFalse(c: Cond): Word {
    match c
    case EqReg(x, y) => OpXY(9, x, y, 0)
    case EqVal(x, v) => OpXKk(4, x, v)
    case NeReg(x, y) => OpXY(5, x, y, 0)
    case NeVal(x, v) => OpXKk(3, x, v)
    case KeyDown(x) => OpXKk(14, x, 0xA1)
    case KeyUp(x) => OpXKk(14, x, 0x9E)
  }

  /** Skips the next instruction if c holds. */
  function SkipTrue(c: Cond): Word {
    match c
    case EqReg(x, y) => OpXY(5, x, y, 0)
    case EqVal(x, v) => OpXKk(3, x, v)
    case NeReg(x, y) => OpXY(9, x, y, 0)
    case NeVal(x, v) => OpXKk(4, x, v)
    case KeyDown(x) => OpXKk(14, x, 0x9E)
    case KeyUp(x) => OpXKk(14, x, 0xA1)
  }

  /** Statements that are one instruction, the same wherever they stand. */
  predicate Plain(s: Stmt) {
    !s.Label? && !s.DataByte? && !s.DataWord? && !s.Loop? && !s.Again? && !s.IfThen? && !s.IfBegin? &&
    !s.Else? && !s.End? && !s.Return? && !s.Call? && !s.Jump? && !s.Jump0? && !s.ISet?
  }

  function PlainWord(s: Stmt): Word
    requires Plain(s)
  {
    match s
    case Clear => 0x00E0
    case Sprite(x, y, h) => OpXY(13, x, y, h % 16)
    case IHex(x) => OpXKk(15, x, 0x29)
    case IAdd(x) => OpXKk(15, x, 0x1E)
    case DelaySet(x) => OpXKk(15, x, 0x15)
    case BuzzerSet(x) => OpXKk(15, x, 0x18)
    case Bcd(x) => OpXKk(15, x, 0x33)
    case Load(x) => OpXKk(15, x, 0x65)
    case Save(x) => OpXKk(15, x, 0x55)
    case SetRandom(x, mask) => OpXKk(12, x, mask)
    case SetKey(x) => OpXKk(15, x, 0x0A)
    case SetDelay(x) => OpXKk(15, x, 0x07)
    case SetReg(x, y) => OpXY(8, x, y, 0)
    case SetVal(x, v) => OpXKk(6, x, v)
    case AddReg(x, y) => OpXY(8, x, y, 4)
    case AddVal(x, v) => OpXKk(7, x, v)
    case SubReg(x, y) => OpXY(8, x, y, 5)
    case SubVal(x, v) => OpXKk(7, x, -v)
    case RevSub(x, y) => OpXY(8, x, y, 7)
    case OrReg(x, y) => OpXY(8, x, y, 1)
    case AndReg(x, y) => OpXY(8, x, y, 2)
    case XorReg(x, y) => OpXY(8, x, y, 3)
  }

  function Bytes2(op: Word): seq<Byte> { [op / 256, op % 256] }

  // -------------------------------------------------------------- references

  /** The opcode nibble of a statement that ends in an address. */
  function AddrNibble(s: Stmt): Nibble {
    match s case Jump(_) => 1 case Call(_) => 2 case ISet(_) => 10 case _ => 11
  }

  predicate TakesAddr(s: Stmt) { s.Jump? || s.Jump0? || s.ISet? || s.Call? }

  function TargetOf(s: Stmt): Target
    requires TakesAddr(s)
  {
    match s case Call(n) => Name(n) case Jump(t) => t case Jump0(t) => t case ISet(t) => t
  }

  /** Statement i names a label that is not defined before it. */
  predicate IsForward(p: Program, i: nat)
    requires i < |p|
  {
    TakesAddr(p[i]) && TargetOf(p[i]).Name? && LabelBefore(p, i, TargetOf(p[i]).name).None?
  }

  /** The address in statement i; forward references count only once resolved. */
  function RefAddr(p: Program, i: nat, resolved: bool): int
    requires i < |p| && TakesAddr(p[i])
  {
    match TargetOf(p[i])
    case Num(a) => a
    case Name(n) =>
      if IsForward(p, i) && !resolved then 0
      else match LabelFor(p, i, n) case Some(j) => Addr(p, j) case None => 0
  }

  /** Where the jump of opener i leads: past its else or end, once that has been seen. */
  function ExitAddr(p: Program, i: nat, k: nat): int
    requires i < k <= |p|
  {
    match ScanIf(p, i, k) case Found(j) => Addr(p, j + 1) case Open(_) => 0
  }

  /** The bytes of statement i after k statements; the finished ones for k == |p| and resolved. */
  function Encode(p: Program, i: nat, k: nat, resolved: bool): (b: seq<Byte>)
    requires i < k <= |p|
    ensures |b| == Size(p[i])
  {
    match p[i]
    case Label(_) => []
    case Loop => []
    case End => []
    case DataByte(v) => [v % 256]
    case DataWord(v) => [v / 256 % 256, v % 256]
    case Again => Bytes2(AddrOp(1, match FindLoop(p, i, 0) case Some(j) => Addr(p, j) case None => 0))
    case IfThen(c) => Bytes2(SkipFalse(c))
    case IfBegin(c) => Bytes2(SkipTrue(c)) + Bytes2(AddrOp(1, ExitAddr(p, i, k)))
    case Else => Bytes2(AddrOp(1, ExitAddr(p, i, k)))
    case Return => Bytes2(0x00EE)
    case Call(_) => Bytes2(AddrOp(2, RefAddr(p, i, resolved)))
    case Jump(_) => Bytes2(AddrOp(1, RefAddr(p, i, resolved)))
    case Jump0(_) => Bytes2(AddrOp(11, RefAddr(p, i, resolved)))
    case ISet(_) => Bytes2(AddrOp(10, RefAddr(p, i, resolved)))
    case _ => Bytes2(PlainWord(p[i]))
  }

  function Final(p: Program, i: nat): (b: seq<Byte>)
    requires i < |p|
    ensures |b| == Size(p[i])
  {
    Encode(p, i, |p|, true)
  }

  predicate BytesAt(rom: seq<Byte>, off: int, b: seq<Byte>) {
    0 <= off && off + |b| <= |rom| && rom[off..off + |b|] == b
  }

  // ------------------------------------------------------ acceptable programs

  function OpenIfs(p: Program, k: nat): int
    requires k <= |p|
  {
    if k == 0 then 0
    else OpenIfs(p, k - 1) + (if p[k - 1].IfBegin? then 1 else if p[k - 1].End? then -1 else 0)
  }

  function OpenLoops(p: Program, k: nat): int
    requires k <= |p|
  {
    if k == 0 then 0
    else OpenLoops(p, k - 1) + (if p[k - 1].Loop? then 1 else if p[k - 1].Again? then -1 else 0)
  }

  function CountLabels(p: Program, k: nat): nat
    requires k <= |p|
  {
    if k == 0 then 0
    else CountLabels(p, k - 1) +
         (if p[k - 1].Label? && LabelBefore(p, k - 1, p[k - 1].name).None? then 1 else 0)
  }

  /** The forward references among the first k statements, in order. */
  function Forwards(p: Program, k: nat): (f: seq<nat>)
    requires k <= |p|
    ensures forall m :: 0 <= m < |f| ==> f[m] < k && IsForward(p, f[m])
    ensures forall m, n :: 0 <= m < n < |f| ==> f[m] < f[n]
    ensures forall i :: 0 <= i < k && IsForward(p, i) ==> i in f
  {
    if k == 0 then []
    else Forwards(p, k - 1) + (if IsForward(p, k - 1) then [k - 1] else [])
  }

  /** Nesting and table limits at statement k. */
  predicate StmtFits(p: Program, k: nat)
    requires k < |p|
  {
    match p[k]
    case Label(_) => CountLabels(p, k) < MAX_LABELS
    case Loop => OpenLoops(p, k) < STACK_SZ
    case Again => OpenLoops(p, k) > 0
    case IfBegin(_) => OpenIfs(p, k) < STACK_SZ
    case Else => OpenIfs(p, k) > 0
    case End => OpenIfs(p, k) > 0
    case _ => true
  }

  /** The programs the assembler takes, for a buffer of romMax bytes. */
  predicate Acceptable(p: Program, romMax: nat) {
    && (forall k :: 0 <= k < |p| ==> StmtFits(p, k))
    && OpenIfs(p, |p|) <= 0 && OpenLoops(p, |p|) <= 0
    && Addr(p, |p|) - ROM_BASE <= romMax
    && |Forwards(p, |p|)| <= MAX_FWD
    && (forall i :: 0 <= i < |p| && IsForward(p, i) ==> LabelBefore(p, |p|, TargetOf(p[i]).name).Some?)
  }

  lemma {:induction false} ForwardsMonotone(p: Program, j: nat, k: nat)
    requires j <= k <= |p|
    ensures |Forwards(p, j)| <= |Forwards(p, k)|
    decreases k - j
  {
    if j < k { ForwardsMonotone(p, j, k - 1); }
  }

  // ---------------------------------------------------------------------- data

  /** Data is emitted as it is written, words with the high byte first; the first statement is at 0x200. */
  lemma DataBytes(p: Program, i: nat)
    requires i < |p|
    ensures Addr(p, 0) == 0x200
    ensures p[i].DataByte? ==> Final(p, i) == [p[i].v % 256]
    ensures p[i].DataWord? ==> |Final(p, i)| == 2 && Final(p, i)[0] as int * 256 + Final(p, i)[1] == p[i].v % 65536
  {
    if p[i].DataWord? { HighAndLow(p[i].v); }
  }

  lemma HighAndLow(v: int)
    ensures v / 256 % 256 * 256 + v % 256 == v % 65536
  {
  }

  // ---------------------------------------------------------------------- limits

  /** 1024 labels, 64 open loops and as many open jumps, 4096 forward references. */
  lemma Limits(p: Program, k: nat, romMax: nat)
    requires k < |p| && Acceptable(p, romMax)
    ensures p[k].Label? ==> CountLabels(p, k) <= 1023
    ensures p[k].Loop? ==> OpenLoops(p, k) <= 63
    ensures p[k].IfBegin? ==> OpenIfs(p, k) <= 63
    ensures |Forwards(p, |p|)| <= 4096 && Addr(p, |p|) <= 0x200 + romMax
  {
    hide CountLabels, OpenLoops, OpenIfs, Forwards, Addr, LabelBefore, IsForward;
    assert StmtFits(p, k);
  }
}
