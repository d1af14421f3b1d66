/** The NES 2A03 sound unit's integer state and one CPU cycle of it (audio/apu2a03.c). */
module Apu {
  import opened Runs

  datatype Pulse = Pulse(duty: int, seq8: int, halt: bool, constVol: bool, vol: int,
                         sweepEn: bool, sweepNeg: bool, sweepReload: bool,
                         sweepPeriod: int, sweepShift: int, sweepDiv: int,
                         timerPeriod: int, timer: int, len: int, envDiv: int, envDec: int, envStart: bool)

  datatype Tri = Tri(halt: bool, linLoad: int, lin: int, linReload: bool,
                     timerPeriod: int, timer: int, seq32: int, len: int)

  datatype Noise = Noise(halt: bool, constVol: bool, vol: int, mode: bool, period: int, timer: int,
                         lfsr: int, len: int, envDiv: int, envDec: int, envStart: bool)

  datatype Dmc = Dmc(irqEn: bool, loop: bool, rateIdx: int, level: int, startAddr: int, startLen: int,
                     curAddr: int, bytesRem: int, sampleBuf: int, bufEmpty: bool, shift: int, bitsRem: int,
                     silence: bool, period: int, timer: int, irqFlag: bool,
                     dmaPending: bool, dmaAbort: bool, startDelay: int)

  datatype Frame = Frame(mode5: bool, irqInhibit: bool, irq: bool, div: int,
                         writeDelay: int, newValue: int, clearPending: bool)

  /** The switches a machine sets once, and the memory the DMC reads by itself. */
  datatype Config = Config(sweepEnabled: bool, dmcEnabled: bool, frameIrqEnabled: bool,
                           dmaExternal: bool, memRead: Option<seq<int>>)

  datatype State = State(p0: Pulse, p1: Pulse, tri: Tri, noise: Noise, dmc: Dmc, fc: Frame,
                         chEn: seq<bool>, cycle: nat, apuClk: bool)

  const LEN_TABLE: seq<int> := [10, 254, 20, 2, 40, 4, 80, 6, 160, 8, 60, 10, 14, 12, 26, 14,
                                12, 16, 24, 18, 48, 20, 96, 22, 192, 24, 72, 26, 16, 28, 32, 30]
  const NOISE_PERIOD: seq<int> := [4, 8, 16, 32, 64, 96, 128, 160, 202, 254, 380, 508, 762, 1016, 2034, 4068]

  /** The DMC's timer periods, in CPU cycles: all even. */
  function DmcRate(i: int): (r: int)
    ensures 54 <= r <= 428 && r % 2 == 0
  {
    match i
    case 0 => 428 case 1 => 380 case 2 => 340 case 3 => 320
    case 4 => 286 case 5 => 254 case 6 => 226 case 7 => 214
    case 8 => 190 case 9 => 160 case 10 => 142 case 11 => 128
    case 12 => 106 case 13 => 84 case 14 => 72 case _ => 54
  }

  function Bit(v: int, n: int): bool {
    match n
    case 0 => v % 2 == 1
    case 1 => v / 2 % 2 == 1
    case 2 => v / 4 % 2 == 1
    case 3 => v / 8 % 2 == 1
    case 4 => v / 16 % 2 == 1
    case 5 => v / 32 % 2 == 1
    case 6 => v / 64 % 2 == 1
    case _ => v / 128 % 2 == 1
  }

  // ------------------------------------------------------- envelopes and sweep

  /** Envelope divider, decay level and start flag after one clock. */
  function EnvClock(div: int, dec: int, start: bool, halt: bool, vol: int): (int, int, bool) {
    if start then (vol, 15, false)
    else if div > 0 then (div - 1, dec, false)
    else (vol, if dec > 0 then dec - 1 else if halt then 15 else dec, false)
  }

  function SweepDelta(period: int, shift: int): int {
    match shift
    case 0 => period
    case 1 => period / 2
    case 2 => period / 4
    case 3 => period / 8
    case 4 => period / 16
    case 5 => period / 32
    case 6 => period / 64
    case _ => period / 128
  }

  function SweepTarget(period: int, shift: int, neg: bool, ch: int): int {
    var delta := SweepDelta(period, shift);
    if neg then (period - delta - (if ch == 0 then 1 else 0)) % 65536 else (period + delta) % 65536
  }

  predicate SweepMute(period: int, shift: int, neg: bool, ch: int) {
    period < 8 || SweepTarget(period, shift, neg, ch) > 0x7FF
  }

  function PulseEnv(p: Pulse): Pulse {
    var (d, e, s) := EnvClock(p.envDiv, p.envDec, p.envStart, p.halt, p.vol);
    p.(envDiv := d, envDec := e, envStart := s)
  }

  function NoiseEnv(n: Noise): Noise {
    var (d, e, s) := EnvClock(n.envDiv, n.envDec, n.envStart, n.halt, n.vol);
    n.(envDiv := d, envDec := e, envStart := s)
  }

  function TriLinear(t: Tri): Tri {
    t.(lin := if t.linReload then t.linLoad else if t.lin > 0 then t.lin - 1 else t.lin,
       linReload := t.halt && t.linReload)
  }

  function LenClock(halt: bool, len: int): int { if !halt && len > 0 then len - 1 else len }

  function PulseSweep(p: Pulse, enabled: bool, ch: int): Pulse {
    var period :=
      if enabled && p.sweepDiv == 0 && p.sweepEn && p.sweepShift > 0
         && !SweepMute(p.timerPeriod, p.sweepShift, p.sweepNeg, ch)
      then SweepTarget(p.timerPeriod, p.sweepShift, p.sweepNeg, ch) else p.timerPeriod;
    if p.sweepDiv == 0 || p.sweepReload
    then p.(timerPeriod := period, sweepDiv := p.sweepPeriod, sweepReload := false)
    else p.(timerPeriod := period, sweepDiv := p.sweepDiv - 1)
  }

  function ClockEnvelopes(s: State): State {
    s.(p0 := PulseEnv(s.p0), p1 := PulseEnv(s.p1), noise := NoiseEnv(s.noise), tri := TriLinear(s.tri))
  }

  function ClockLengths(s: State): State {
    s.(p0 := s.p0.(len := LenClock(s.p0.halt, s.p0.len)), p1 := s.p1.(len := LenClock(s.p1.halt, s.p1.len)),
       tri := s.tri.(len := LenClock(s.tri.halt, s.tri.len)),
       noise := s.noise.(len := LenClock(s.noise.halt, s.noise.len)))
  }

  function ClockLengthsSweep(c: Config, s: State): State {
    var t := ClockLengths(s);
    t.(p0 := PulseSweep(t.p0, c.sweepEnabled, 0), p1 := PulseSweep(t.p1, c.sweepEnabled, 1))
  }

  function ClockFrame(c: Config, s: State, half: bool): State {
    if half then ClockLengthsSweep(c, ClockEnvelopes(s)) else ClockEnvelopes(s)
  }

  // ------------------------------------------------------------ channel timers

  function TickTri(t: Tri): Tri {
    if t.timer > 0 then t.(timer := t.timer - 1)
    else t.(timer := t.timerPeriod, seq32 := if t.len > 0 && t.lin > 0 then (t.seq32 + 1) % 32 else t.seq32)
  }

  function TickPulse(p: Pulse): Pulse {
    if p.timer > 0 then p.(timer := p.timer - 1)
    else p.(timer := p.timerPeriod, seq8 := (p.seq8 + 1) % 8)
  }

  function TickNoise(n: Noise): Noise {
    if n.timer > 0 then n.(timer := n.timer - 1)
    else
      var feedback := Bit(n.lfsr, if n.mode then 6 else 1) != Bit(n.lfsr, 0);
      var half := n.lfsr / 2;
      n.(timer := n.period,
         lfsr := if feedback && half / 16384 % 2 == 0 then half + 16384 else half)
  }

  // ----------------------------------------------------------------------- DMC

  /** The output level moves by two, within 0 to 127, unless silenced. */
  function DmcLevel(d: Dmc): int {
    if d.silence then d.level
    else if d.shift % 2 == 1 then (if d.level <= 125 then d.level + 2 else d.level)
    else (if d.level >= 2 then d.level - 2 else d.level)
  }

  /** The timer expires: one output bit, and after the eighth the buffer is taken. */
  function DmcOutput(d: Dmc): Dmc {
    var e := d.(timer := (d.period / 2 - 1) % 65536, level := DmcLevel(d), shift := d.shift / 2,
                bitsRem := (d.bitsRem - 1) % 256);
    if e.bitsRem != 0 then e
    else if d.bufEmpty then e.(bitsRem := 8, silence := true)
    else e.(bitsRem := 8, silence := false, shift := d.sampleBuf, bufEmpty := true)
  }

  /** The DMC's timer counts on even cycles only. */
  function DmcTimer(d: Dmc, cycle: nat): Dmc {
    if cycle % 2 != 0 then d
    else if d.timer > 0 then d.(timer := d.timer - 1)
    else DmcOutput(d)
  }

  /** Where the sample goes on after a byte, how many bytes are left, and the interrupt: after the last
      byte it starts over or raises the interrupt. */
  function AddrAfter(d: Dmc): int {
    if d.bytesRem == 1 && d.loop then d.startAddr else if d.curAddr == 0xFFFF then 0x8000 else d.curAddr + 1
  }

  function LeftAfter(d: Dmc): int { if d.bytesRem == 1 && d.loop then d.startLen else d.bytesRem - 1 }
  function IrqAfter(d: Dmc): bool { d.irqFlag || (d.bytesRem == 1 && !d.loop && d.irqEn) }

  function Filled(d: Dmc, byte: int, addr: int, left: int, irq: bool): Dmc {
    d.(dmaPending := false, sampleBuf := byte, bufEmpty := false, curAddr := addr, bytesRem := left, irqFlag := irq)
  }

  /** The DMA delivers its byte; a channel stopped meanwhile drops it. */
  function DmcFill(d: Dmc, byte: int): Dmc {
    if d.bytesRem == 0 then d.(dmaPending := false)
    else Filled(d, byte, AddrAfter(d), LeftAfter(d), IrqAfter(d))
  }

  function ReadByte(mem: seq<int>, a: int): int { if 0 <= a < |mem| then mem[a] else 0 }

  /** The memory reader refills an empty buffer, after any start delay. */
  function DmcReader(c: Config, d: Dmc): Dmc {
    var e := if d.startDelay > 0 then d.(startDelay := d.startDelay - 1) else d;
    if e.startDelay > 0 then e
    else if e.bufEmpty && e.bytesRem > 0 then
      if c.dmaExternal then e.(dmaPending := true)
      else match c.memRead
        case None => e
        case Some(mem) => DmcFill(e, ReadByte(mem, e.curAddr))
    else e
  }

  function TickDmc(c: Config, d: Dmc, cycle: nat): Dmc {
    if c.dmcEnabled then DmcReader(c, DmcTimer(d, cycle)) else d
  }

  // ------------------------------------------------------------- frame counter

  /** A delayed $4017 write lands when its delay runs out. */
  predicate WriteLands(f: Frame) { f.writeDelay == 1 }

  /** The sequence position this tick reaches, before wrapping. */
  function FrameTime(f: Frame): int {
    if WriteLands(f) then 1 else f.div + 1
  }

  function ModeAfter(f: Frame): bool {
    if WriteLands(f) then Bit(f.newValue, 7) else f.mode5
  }

  function SequenceLength(mode5: bool): int { if mode5 then 37282 else 29830 }

  /** Envelopes are clocked at these positions, ... */
  predicate QuarterAt(mode5: bool, t: int) {
    t == 7457 || t == 14913 || t == 22371 || t == (if mode5 then 37281 else 29829)
  }

  /** ... lengths and sweeps at these. */
  predicate HalfAt(mode5: bool, t: int) {
    t == 14913 || t == (if mode5 then 37281 else 29829)
  }

  function TickFrame(c: Config, f: Frame, cycle: nat): Frame {
    var cleared := f.clearPending && cycle % 2 != 0;
    var mode5, t := ModeAfter(f), FrameTime(f);
    var irqCycle := !mode5 && 29828 <= t <= 29830;
    var irq := if irqCycle && c.frameIrqEnabled && !f.irqInhibit then true
               else if cleared then false else f.irq;
    f.(mode5 := mode5, irq := irq, clearPending := f.clearPending && !cleared,
       div := if t == SequenceLength(mode5) then 0 else t,
       writeDelay := if f.writeDelay > 0 then f.writeDelay - 1 else f.writeDelay)
  }

  /** What the frame counter clocks on this tick: at once for a landing 5-step write, then by position. */
  function FrameClocks(c: Config, s: State): State {
    var f := s.fc;
    var mode5, t := ModeAfter(f), FrameTime(f);
    var a := if WriteLands(f) && mode5 then ClockFrame(c, s, true) else s;
    if QuarterAt(mode5, t) then ClockFrame(c, a, HalfAt(mode5, t)) else a
  }

  // ---------------------------------------------------------------- one cycle

  function Tick(c: Config, s: State): State {
    var cycle, clk := s.cycle + 1, !s.apuClk;
    var a := s.(cycle := cycle, apuClk := clk, tri := TickTri(s.tri));
    var b := if clk then a.(p0 := TickPulse(a.p0), p1 := TickPulse(a.p1), noise := TickNoise(a.noise)) else a;
    var d := b.(dmc := TickDmc(c, b.dmc, cycle));
    var e := FrameClocks(c, d);
    e.(fc := TickFrame(c, d.fc, cycle))
  }

  /** n cycles. */
  function TickN(c: Config, s: State, n: nat): State
    decreases n
  {
    if n == 0 then s else TickN(c, Tick(c, s), n - 1)
  }

  // --------------------------------------------------------- register accesses

  /** Writing the low byte, or the high three bits, of an 11-bit period. */
  function PeriodLow(p: int, v: int): int { p / 256 % 8 * 256 + v }
  function PeriodHigh(p: int, v: int): int { p % 256 + v % 8 * 256 }

  function WritePulse(c: Config, p: Pulse, reg: int, v: int, en: bool): Pulse {
    match reg
    case 0 => p.(duty := v / 64, halt := Bit(v, 5), constVol := Bit(v, 4), vol := v % 16)
    case 1 =>
      if !c.sweepEnabled then p
      else p.(sweepEn := Bit(v, 7), sweepPeriod := v / 16 % 8, sweepNeg := Bit(v, 3),
              sweepShift := v % 8, sweepReload := true)
    case 2 => p.(timerPeriod := PeriodLow(p.timerPeriod, v))
    case _ => p.(timerPeriod := PeriodHigh(p.timerPeriod, v),
                 len := if en then LEN_TABLE[v / 8 % 32] else p.len, envStart := true, seq8 := 0)
  }

  function WriteTri(t: Tri, addr: int, v: int, en: bool): Tri {
    match addr
    case 0x4008 => t.(halt := Bit(v, 7), linLoad := v % 128)
    case 0x400A => t.(timerPeriod := PeriodLow(t.timerPeriod, v))
    case 0x400B => t.(timerPeriod := PeriodHigh(t.timerPeriod, v),
                      len := if en then LEN_TABLE[v / 8 % 32] else t.len, linReload := true)
    case _ => t
  }

  function WriteNoise(n: Noise, addr: int, v: int, en: bool): Noise {
    match addr
    case 0x400C => n.(halt := Bit(v, 5), constVol := Bit(v, 4), vol := v % 16)
    case 0x400E => n.(mode := Bit(v, 7), period := NOISE_PERIOD[v % 16])
    case 0x400F => n.(len := if en then LEN_TABLE[v / 8 % 32] else n.len, envStart := true)
    case _ => n
  }

  function WriteDmcControl(d: Dmc, v: int): Dmc {
    d.(irqEn := Bit(v, 7), loop := Bit(v, 6), rateIdx := v % 16, period := DmcRate(v % 16),
       irqFlag := d.irqFlag && Bit(v, 7))
  }

  function WriteDmc(c: Config, d: Dmc, addr: int, v: int): Dmc {
    if !c.dmcEnabled then (if addr == 0x4010 then d.(irqFlag := false) else d)
    else match addr
      case 0x4010 => WriteDmcControl(d, v)
      case 0x4011 => d.(level := v % 128)
      case 0x4012 => d.(startAddr := 0xC000 + v * 64)
      case 0x4013 => d.(startLen := v * 16 + 1)
      case _ => d
  }

  /** $4015's DMC bit: stopping drops a pending DMA; starting with an empty buffer arms the first
      fetch 2 or 3 cycles on, so that it falls on an odd one. */
  function DmcStatus(d: Dmc, en: bool, cycle: nat): Dmc {
    var d1 :=
      if !en then d.(bytesRem := 0, startDelay := 0)
      else if d.bytesRem == 0 then
        d.(curAddr := d.startAddr, bytesRem := d.startLen,
           startDelay := if d.bufEmpty then (if (cycle + 1) % 2 != 0 then 3 else 2) else d.startDelay)
      else d;
    var d2 := if !en && d1.dmaPending then d1.(dmaPending := false, dmaAbort := true) else d1;
    d2.(irqFlag := false)
  }

  /** $4015: channel enables. */
  function WriteStatus(c: Config, s: State, v: int): State
    requires |s.chEn| == 5
  {
    var en := [Bit(v, 0), Bit(v, 1), Bit(v, 2), Bit(v, 3), Bit(v, 4) && c.dmcEnabled];
    s.(chEn := en, p0 := if en[0] then s.p0 else s.p0.(len := 0), p1 := if en[1] then s.p1 else s.p1.(len := 0),
       tri := if en[2] then s.tri else s.tri.(len := 0), noise := if en[3] then s.noise else s.noise.(len := 0),
       dmc := DmcStatus(s.dmc, en[4], s.cycle))
  }

  /** $4017: the inhibit flag acts at once, the sequence restarts 3 or 4 cycles later. */
  function WriteFrame(c: Config, s: State, v: int): State {
    var inhibit := Bit(v, 6) || !c.frameIrqEnabled;
    s.(fc := s.fc.(irqInhibit := inhibit, irq := s.fc.irq && !inhibit,
                   clearPending := s.fc.clearPending && !inhibit, newValue := v,
                   writeDelay := if (s.cycle + 1) % 2 != 0 then 4 else 3))
  }

  function Write(c: Config, s: State, addr: int, v: int): State
    requires |s.chEn| == 5
  {
    if 0x4000 <= addr <= 0x4003 then s.(p0 := WritePulse(c, s.p0, addr - 0x4000, v, s.chEn[0]))
    else if 0x4004 <= addr <= 0x4007 then s.(p1 := WritePulse(c, s.p1, addr - 0x4004, v, s.chEn[1]))
    else if 0x4008 <= addr <= 0x400B then s.(tri := WriteTri(s.tri, addr, v, s.chEn[2]))
    else if 0x400C <= addr <= 0x400F then s.(noise := WriteNoise(s.noise, addr, v, s.chEn[3]))
    else if 0x4010 <= addr <= 0x4013 then s.(dmc := WriteDmc(c, s.dmc, addr, v))
    else if addr == 0x4015 then WriteStatus(c, s, v)
    else if addr == 0x4017 then WriteFrame(c, s, v)
    else s
  }

  function StatusByte(c: Config, s: State): int {
    (if s.p0.len > 0 then 0x01 else 0) + (if s.p1.len > 0 then 0x02 else 0) +
    (if s.tri.len > 0 then 0x04 else 0) + (if s.noise.len > 0 then 0x08 else 0) +
    (if c.dmcEnabled && s.dmc.bytesRem > 0 then 0x10 else 0) +
    (if c.frameIrqEnabled && s.fc.irq then 0x40 else 0) +
    (if c.dmcEnabled && s.dmc.irqFlag then 0x80 else 0)
  }

  /** Reading $4015 asks for the frame flag to be cleared at the next get cycle. */
  function AfterRead(s: State): State {
    if s.fc.irq then s.(fc := s.fc.(clearPending := true)) else s
  }

  function Fill(s: State, byte: int): State { s.(dmc := DmcFill(s.dmc, byte)) }

  function InitState(): State {
    var p := Pulse(0, 0, false, false, 0, false, false, false, 0, 0, 0, 0, 0, 0, 0, 0, false);
    State(p, p, Tri(false, 0, 0, false, 0, 0, 0, 0), Noise(false, false, 0, false, 0, 0, 1, 0, 0, 0, false),
          Dmc(false, false, 0, 0, 0, 0, 0, 0, 0, true, 0, 8, true, 0, 0, false, false, false, 0),
          Frame(false, false, false, 0, 0, 0, false), [false, false, false, false, false], 0, false)
  }

  // ------------------------------------------------------------- the predictor

  function PeriodsLeft(bits: int, half: int): int { (bits - 1) * half }

  /** Cycles to the timer expiry on which the buffer is taken, as the code's closed form counts them. */
  function ExpiryTicks(d: Dmc, cycle: nat): int {
    2 * (d.timer + 1 + PeriodsLeft(d.bitsRem, d.period / 2)) - cycle % 2
  }

  /** Cycles for which nothing the CPU sees can change without a register access. */
  function UntilEvent(c: Config, s: State): int {
    if s.fc.writeDelay > 0 || s.fc.clearPending then 0
    else
      var best := if !s.fc.mode5 && c.frameIrqEnabled && !s.fc.irqInhibit
                  then (if s.fc.div < 29828 then 29828 - s.fc.div else 1) else 0x4000_0000;
      if !c.dmcEnabled then best
      else if s.dmc.startDelay > 0 then 0
      else if s.dmc.bufEmpty then (if s.dmc.bytesRem > 0 && !s.dmc.dmaPending then 0 else best)
      else if s.dmc.bytesRem > 0 then
        var ticks := ExpiryTicks(s.dmc, s.cycle);
        if ticks - 1 < best then ticks - 1 else best
      else best
  }

  // ------------------------------------------------------- the unit, in place

  class Apu2a03 {
    const c: Config
    var p0: Pulse
    var p1: Pulse
    var tri: Tri
    var noise: Noise
    var dmc: Dmc
    var fc: Frame
    var chEn: seq<bool>
    var cycle: nat
    var apuClk: bool

    function Abs(): State
      reads this
    {
      State(p0, p1, tri, noise, dmc, fc, chEn, cycle, apuClk)
    }

    constructor (config: Config)
      ensures c == config && Abs() == InitState()
    {
      c := config;
      var p := Pulse(0, 0, false, false, 0, false, false, false, 0, 0, 0, 0, 0, 0, 0, 0, false);
      p0, p1 := p, p;
      tri := Tri(false, 0, 0, false, 0, 0, 0, 0);
      noise := Noise(false, false, 0, false, 0, 0, 1, 0, 0, 0, false);
      dmc := Dmc(false, false, 0, 0, 0, 0, 0, 0, 0, true, 0, 8, true, 0, 0, false, false, false, 0);
      fc := Frame(false, false, false, 0, 0, 0, false);
      chEn, cycle, apuClk := [false, false, false, false, false], 0, false;
    }

    method ClockPulseSweep(p: Pulse, ch: int) returns (q: Pulse)
      ensures q == PulseSweep(p, c.sweepEnabled, ch)
    {
      q := p;
      if c.sweepEnabled && q.sweepDiv == 0 && q.sweepEn && q.sweepShift > 0
         && !SweepMute(q.timerPeriod, q.sweepShift, q.sweepNeg, ch) {
        q := q.(timerPeriod := SweepTarget(q.timerPeriod, q.sweepShift, q.sweepNeg, ch));
      }
      if q.sweepDiv == 0 || q.sweepReload {
        q := q.(sweepDiv := q.sweepPeriod, sweepReload := false);
      } else {
        q := q.(sweepDiv := q.sweepDiv - 1);
      }
    }

    method DoClockEnvelopes()
      modifies this
      ensures Abs() == ClockEnvelopes(old(Abs()))
    {
      hide PulseEnv, NoiseEnv;
      p0, p1, noise := PulseEnv(p0), PulseEnv(p1), NoiseEnv(noise);
      if tri.linReload { tri := tri.(lin := tri.linLoad); }
      else if tri.lin > 0 { tri := tri.(lin := tri.lin - 1); }
      if !tri.halt { tri := tri.(linReload := false); }
    }

    method DoClockLengths()
      modifies this
      ensures Abs() == ClockLengths(old(Abs()))
    {
      p0 := p0.(len := LenClock(p0.halt, p0.len));
      p1 := p1.(len := LenClock(p1.halt, p1.len));
      tri := tri.(len := LenClock(tri.halt, tri.len));
      noise := noise.(len := LenClock(noise.halt, noise.len));
    }

    method DoClockLengthsSweep()
      modifies this
      ensures Abs() == ClockLengthsSweep(c, old(Abs()))
    {
      hide PulseSweep, ClockLengths;
      DoClockLengths();
      var q0 := ClockPulseSweep(p0, 0);
      var q1 := ClockPulseSweep(p1, 1);
      p0, p1 := q0, q1;
    }

    method DoClockFrame(half: bool)
      modifies this
      ensures Abs() == ClockFrame(c, old(Abs()), half)
    {
      hide ClockEnvelopes, ClockLengthsSweep;
      DoClockEnvelopes();
      if half { DoClockLengthsSweep(); }
    }

    method DoDmcTimer()
      modifies this`dmc
      ensures dmc == DmcTimer(old(dmc), cycle)
    {
      hide DmcOutput;
      if cycle % 2 != 0 {
      } else if dmc.timer > 0 {
        dmc := dmc.(timer := dmc.timer - 1);
      } else {
        DoDmcOutput();
      }
    }

    method DoDmcReader()
      modifies this`dmc
      ensures dmc == DmcReader(c, old(dmc))
    {
      hide DmcFill;
      var d := dmc;
      if d.startDelay > 0 {
        d := d.(startDelay := d.startDelay - 1);
        if d.startDelay > 0 { dmc := d; return; }
      }
      dmc := d;
      if d.bufEmpty && d.bytesRem > 0 {
        if c.dmaExternal {
          dmc := d.(dmaPending := true);
        } else if c.memRead.Some? {
          DoFill(ReadByte(c.memRead.value, d.curAddr));
        }
      }
    }

    method DoTickDmc()
      modifies this`dmc
      ensures dmc == TickDmc(c, old(dmc), cycle)
    {
      hide DmcTimer, DmcReader;
      if c.dmcEnabled {
        DoDmcTimer();
        DoDmcReader();
      }
    }

    method DoDmcLevel()
      modifies this`dmc
      ensures dmc == old(dmc).(level := DmcLevel(old(dmc)))
    {
      if !dmc.silence {
        if dmc.shift % 2 == 1 {
          if dmc.level <= 125 { dmc := dmc.(level := dmc.level + 2); }
        } else {
          if dmc.level >= 2 { dmc := dmc.(level := dmc.level - 2); }
        }
      }
    }

    method DoDmcOutput()
      modifies this`dmc
      ensures dmc == DmcOutput(old(dmc))
    {
      hide DmcLevel;
      DoDmcLevel();
      var d := dmc.(timer := (dmc.period / 2 - 1) % 65536, shift := dmc.shift / 2, bitsRem := (dmc.bitsRem - 1) % 256);
      if d.bitsRem == 0 {
        d := d.(bitsRem := 8);
        if d.bufEmpty {
          d := d.(silence := true);
        } else {
          d := d.(silence := false, shift := d.sampleBuf, bufEmpty := true);
        }
      }
      dmc := d;
    }

    method DoFill(byte: int)
      modifies this`dmc
      ensures dmc == DmcFill(old(dmc), byte)
    {
      dmc := dmc.(dmaPending := false);
      if dmc.bytesRem == 0 { return; }
      dmc := dmc.(sampleBuf := byte, bufEmpty := false,
                  curAddr := if dmc.curAddr == 0xFFFF then 0x8000 else dmc.curAddr + 1,
                  bytesRem := dmc.bytesRem - 1);
      if dmc.bytesRem == 0 {
        if dmc.loop {
          dmc := dmc.(curAddr := dmc.startAddr, bytesRem := dmc.startLen);
        } else if dmc.irqEn {
          dmc := dmc.(irqFlag := true);
        }
      }
    }

    /** A $4017 write whose delay has run out restarts the sequence. */
    method DoLandWrite(f: Frame) returns (g: Frame)
      modifies this
      ensures g == if f.writeDelay > 0
                   then f.(writeDelay := f.writeDelay - 1, mode5 := ModeAfter(f), div := FrameTime(f) - 1)
                   else f.(div := FrameTime(f) - 1)
      ensures Abs() == if WriteLands(f) && ModeAfter(f) then ClockFrame(c, old(Abs()), true) else old(Abs())
    {
      hide ClockFrame;
      g := f;
      if g.writeDelay > 0 {
        g := g.(writeDelay := g.writeDelay - 1);
        if g.writeDelay == 0 {
          g := g.(mode5 := Bit(g.newValue, 7), div := 0);
          if g.mode5 { DoClockFrame(true); }
        }
      }
    }

    method DoPosition(mode5: bool, t: int)
      modifies this
      ensures Abs() == if QuarterAt(mode5, t) then ClockFrame(c, old(Abs()), HalfAt(mode5, t)) else old(Abs())
    {
      hide ClockFrame;
      if t == 7457 || t == 22371 { DoClockFrame(false); }
      else if t == 14913 { DoClockFrame(true); }
      if !mode5 {
        if t == 29829 { DoClockFrame(true); }
      } else {
        if t == 37281 { DoClockFrame(true); }
      }
    }

    /** The interrupt flag, the clear request and the wrap, once the position is known. */
    method FinishFrame(f: Frame, irq: bool, pending: bool) returns (g: Frame)
      ensures g == f.(div := if f.div == SequenceLength(f.mode5) then 0 else f.div, clearPending := pending,
                      irq := if !f.mode5 && 29828 <= f.div <= 29830 && c.frameIrqEnabled && !f.irqInhibit then true else irq)
    {
      g := f.(irq := irq, clearPending := pending);
      var t, irqCycle := f.div, false;
      if !f.mode5 {
        if 29828 <= t <= 29830 { irqCycle := true; }
        if t == 29830 { g := g.(div := 0); }
      } else {
        if t == 37282 { g := g.(div := 0); }
      }
      if irqCycle && c.frameIrqEnabled && !g.irqInhibit { g := g.(irq := true); }
    }

    /** A requested clear takes effect on an odd cycle. */
    method ClearFlag() returns (irq: bool, pending: bool)
      ensures pending == (fc.clearPending && cycle % 2 == 0)
      ensures irq == if fc.clearPending && cycle % 2 != 0 then false else fc.irq
    {
      irq, pending := fc.irq, fc.clearPending;
      if pending && cycle % 2 != 0 { irq, pending := false, false; }
    }

    method DoTickFrame()
      modifies this
      ensures Abs() == FrameClocks(c, old(Abs())).(fc := TickFrame(c, old(fc), old(cycle)))
    {
      hide ClockFrame, QuarterAt, HalfAt, ModeAfter, FrameTime, WriteLands, TickFrame, SequenceLength, Bit;
      var irq, pending := ClearFlag();
      var f0 := fc;
      var f := DoLandWrite(f0);
      f := f.(div := f.div + 1);
      DoPosition(f.mode5, f.div);
      LandedMode(f0);
      f := FinishFrame(f, irq, pending);
      FrameParts(c, f0, old(cycle), f, irq, pending);
      fc := f;
    }

    /** One CPU cycle. */
    method TickOne()
      modifies this
      ensures Abs() == Tick(c, old(Abs()))
    {
      hide FrameClocks, TickFrame, TickDmc, TickNoise, TickPulse, TickTri;
      cycle := cycle + 1;
      apuClk := !apuClk;
      tri := TickTri(tri);
      if apuClk {
        p0, p1 := TickPulse(p0), TickPulse(p1);
        noise := TickNoise(noise);
      }
      DoTickDmc();
      DoTickFrame();
    }

    /** $4015 on the DMC: stop it, or start it when it has run out. */
    method DoWriteDmcStatus(en: bool)
      modifies this`dmc
      ensures dmc == DmcStatus(old(dmc), en, cycle)
    {
      var d := dmc;
      if !en {
        d := d.(bytesRem := 0, startDelay := 0);
      } else if d.bytesRem == 0 {
        d := d.(curAddr := d.startAddr, bytesRem := d.startLen);
        if d.bufEmpty { d := d.(startDelay := if (cycle + 1) % 2 != 0 then 3 else 2); }
      }
      if !en && d.dmaPending { d := d.(dmaPending := false, dmaAbort := true); }
      dmc := d.(irqFlag := false);
    }

    method DoWriteStatus(v: int)
      requires |chEn| == 5
      modifies this
      ensures Abs() == WriteStatus(c, old(Abs()), v)
    {
      hide Bit, DmcStatus;
      chEn := [Bit(v, 0), Bit(v, 1), Bit(v, 2), Bit(v, 3), Bit(v, 4) && c.dmcEnabled];
      ClearLengths();
      DoWriteDmcStatus(chEn[4]);
    }

    /** Disabled channels fall silent at once. */
    method ClearLengths()
      requires |chEn| == 5
      modifies this`p0, this`p1, this`tri, this`noise
      ensures p0 == (if chEn[0] then old(p0) else old(p0).(len := 0)) && p1 == (if chEn[1] then old(p1) else old(p1).(len := 0))
      ensures tri == (if chEn[2] then old(tri) else old(tri).(len := 0))
      ensures noise == if chEn[3] then old(noise) else old(noise).(len := 0)
    {
      if !chEn[0] { p0 := p0.(len := 0); }
      if !chEn[1] { p1 := p1.(len := 0); }
      if !chEn[2] { tri := tri.(len := 0); }
      if !chEn[3] { noise := noise.(len := 0); }
    }

    method DoWriteFrame(v: int)
      modifies this`fc
      ensures Abs() == WriteFrame(c, old(Abs()), v)
    {
      hide Bit;
      var f := fc;
      f := f.(irqInhibit := Bit(v, 6) || !c.frameIrqEnabled);
      if f.irqInhibit { f := f.(irq := false, clearPending := false); }
      fc := f.(newValue := v, writeDelay := if (cycle + 1) % 2 != 0 then 4 else 3);
    }

    /** A register write, landing on the next cycle. */
    method DoWrite(addr: int, v: int)
      requires |chEn| == 5
      modifies this
      ensures Abs() == Write(c, old(Abs()), addr, v)
    {
      hide Bit, WriteStatus, WriteFrame, WritePulse, WriteTri, WriteNoise, WriteDmc;
      if 0x4000 <= addr <= 0x4003 { p0 := WritePulse(c, p0, addr - 0x4000, v, chEn[0]); }
      else if 0x4004 <= addr <= 0x4007 { p1 := WritePulse(c, p1, addr - 0x4004, v, chEn[1]); }
      else if 0x4008 <= addr <= 0x400B { tri := WriteTri(tri, addr, v, chEn[2]); }
      else if 0x400C <= addr <= 0x400F { noise := WriteNoise(noise, addr, v, chEn[3]); }
      else if 0x4010 <= addr <= 0x4013 { dmc := WriteDmc(c, dmc, addr, v); }
      else if addr == 0x4015 { DoWriteStatus(v); }
      else if addr == 0x4017 { DoWriteFrame(v); }
    }

    /** Reads $4015; other registers read as 0. */
    method DoRead(addr: int) returns (r: int)
      modifies this`fc
      ensures r == if addr == 0x4015 then StatusByte(c, old(Abs())) else 0
      ensures Abs() == if addr == 0x4015 then AfterRead(old(Abs())) else old(Abs())
    {
      if addr != 0x4015 { return 0; }
      r := StatusByte(c, Abs());
      if fc.irq { fc := fc.(clearPending := true); }
    }

    /** Catches up with cycle to. */
    method Run(to: nat)
      modifies this
      ensures Abs() == TickN(c, old(Abs()), if to > old(cycle) then to - old(cycle) else 0)
    {
      hide Tick;
      ghost var n := if to > cycle then to - cycle else 0;
      while cycle < to
        invariant old(cycle) <= cycle && (cycle <= to || cycle == old(cycle))
        invariant TickN(c, old(Abs()), n) == TickN(c, Abs(), if to > cycle then to - cycle else 0)
      {
        ghost var before := Abs();
        TickOne();
        TickAdvances(c, before);
      }
    }
  }

  lemma TickAdvances(c: Config, s: State)
    ensures Tick(c, s).cycle == s.cycle + 1
  {
    hide TickTri, TickPulse, TickNoise, TickDmc, TickFrame, PulseEnv, NoiseEnv, TriLinear, PulseSweep;
  }

  lemma LandedMode(f: Frame)
    ensures f.writeDelay <= 0 ==> ModeAfter(f) == f.mode5
  {
  }

  /** The frame counter after a tick, from its parts. */
  lemma FrameParts(c: Config, f: Frame, cycle: nat, g: Frame, irq: bool, pending: bool)
    requires pending == (f.clearPending && cycle % 2 == 0)
    requires irq == (if f.clearPending && cycle % 2 != 0 then false else f.irq)
    requires var mode5, t := ModeAfter(f), FrameTime(f);
      g == f.(mode5 := mode5, div := if t == SequenceLength(mode5) then 0 else t, clearPending := pending,
              writeDelay := if f.writeDelay > 0 then f.writeDelay - 1 else f.writeDelay,
              irq := if !mode5 && 29828 <= t <= 29830 && c.frameIrqEnabled && !f.irqInhibit then true else irq)
    ensures g == TickFrame(c, f, cycle)
  {
    hide ModeAfter, FrameTime;
  }
}
