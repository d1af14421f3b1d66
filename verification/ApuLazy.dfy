/** The 2A03's invariants over every run, and why a machine may leave it behind: between
    register accesses nothing the CPU sees changes before the predicted event. */
module ApuLazy {
  import opened Runs
  import opened Apu

  // ---------------------------------------------------------------- invariants

  /** A period from the rate table, or the 0 of a unit whose $4010 was never written. */
  predicate RatePeriod(p: int) { p == 0 || (54 <= p <= 428 && p % 2 == 0) }

  /** The DMC's reader and its parity: a first fetch waits for an odd cycle, a pending DMA has
      an empty buffer and bytes left, and (with external DMA) that state always asks. */
  predicate DmcInv(c: Config, d: Dmc, cycle: nat) {
    && 1 <= d.bitsRem <= 8 && d.timer >= 0 && RatePeriod(d.period) && d.bytesRem >= 0 && d.startLen >= 0
    && 0 <= d.startDelay <= 3
    && (d.startDelay > 0 ==> (cycle + d.startDelay) % 2 == 1 && d.bufEmpty && !d.dmaPending)
    && (d.dmaPending ==> d.bufEmpty && d.bytesRem > 0 && c.dmaExternal)
    && (!c.dmcEnabled ==> d.bytesRem == 0 && d.startDelay == 0)
    && (c.dmcEnabled && c.dmaExternal && d.bufEmpty && d.bytesRem > 0 ==> d.dmaPending || d.startDelay > 0)
  }

  /** A delayed $4017 write lands on an even cycle. */
  predicate FrameInv(f: Frame, cycle: nat) {
    && 0 <= f.div < SequenceLength(f.mode5)
    && 0 <= f.writeDelay <= 4 && (f.writeDelay > 0 ==> (cycle + f.writeDelay) % 2 == 0)
  }

  /** Sweeps stay within 11 bits. */
  predicate PulseInv(p: Pulse) { 0 <= p.timerPeriod <= 0x7FF && 0 <= p.sweepShift <= 7 }

  predicate Inv(c: Config, s: State) {
    && |s.chEn| == 5
    && DmcInv(c, s.dmc, s.cycle) && FrameInv(s.fc, s.cycle) && PulseInv(s.p0) && PulseInv(s.p1)
  }

  /** What can happen to the unit, one step at a time. */
  datatype Op = Cycle | WriteReg(addr: int, v: int) | ReadStatus | Deliver(byte: int)

  /** Values are bytes, and a byte is delivered only when one was asked for
      (or the channel was stopped meanwhile). */
  predicate Allowed(s: State, op: Op) {
    match op
    case WriteReg(_, v) => 0 <= v < 256
    case Deliver(_) => s.dmc.dmaPending || s.dmc.bytesRem == 0
    case _ => true
  }

  function Apply(c: Config, s: State, op: Op): State
    requires Inv(c, s)
  {
    match op
    case Cycle => Tick(c, s)
    case WriteReg(addr, v) => Write(c, s, addr, v)
    case ReadStatus => AfterRead(s)
    case Deliver(b) => Fill(s, b)
  }

  lemma FrameClocksFrame(c: Config, s: State)
    ensures var t := FrameClocks(c, s); t.dmc == s.dmc && t.fc == s.fc && t.cycle == s.cycle && t.chEn == s.chEn
  {
    hide PulseEnv, NoiseEnv, TriLinear, PulseSweep, LenClock;
  }

  lemma TickParts(c: Config, s: State)
    ensures var t := Tick(c, s);
      && t.cycle == s.cycle + 1 && t.chEn == s.chEn
      && t.dmc == TickDmc(c, s.dmc, s.cycle + 1)
      && t.fc == TickFrame(c, s.fc, s.cycle + 1)
  {
    hide TickTri, TickPulse, TickNoise, TickDmc, TickFrame, FrameClocks;
    var b := s.(cycle := s.cycle + 1, apuClk := !s.apuClk, tri := TickTri(s.tri));
    var b' := if b.apuClk then b.(p0 := TickPulse(b.p0), p1 := TickPulse(b.p1), noise := TickNoise(b.noise)) else b;
    FrameClocksFrame(c, b'.(dmc := TickDmc(c, b'.dmc, s.cycle + 1)));
  }

  /** A sweep that is not muted moves to a period that still fits 11 bits. */
  lemma SweepInRange(p: Pulse, enabled: bool, ch: int)
    requires PulseInv(p) && 0 <= ch <= 1
    ensures PulseInv(PulseSweep(p, enabled, ch))
    ensures p.sweepShift > 0 && !SweepMute(p.timerPeriod, p.sweepShift, p.sweepNeg, ch) ==>
      0 <= SweepTarget(p.timerPeriod, p.sweepShift, p.sweepNeg, ch) <= 0x7FF
  {
  }

  lemma PulsesKept(c: Config, s: State)
    requires PulseInv(s.p0) && PulseInv(s.p1)
    ensures PulseInv(Tick(c, s).p0) && PulseInv(Tick(c, s).p1)
  {
    hide TickTri, TickNoise, TickDmc, TickFrame, FrameClocks, TickPulse, PulseInv;
    TimerKeepsPulse(s.p0);
    TimerKeepsPulse(s.p1);
    var b := s.(cycle := s.cycle + 1, apuClk := !s.apuClk, tri := TickTri(s.tri));
    var b' := if b.apuClk then b.(p0 := TickPulse(b.p0), p1 := TickPulse(b.p1), noise := TickNoise(b.noise)) else b;
    FrameClocksKeepPulses(c, b'.(dmc := TickDmc(c, b'.dmc, s.cycle + 1)));
  }

  lemma TimerKeepsPulse(p: Pulse)
    requires PulseInv(p)
    ensures PulseInv(TickPulse(p))
  {
  }

  lemma FrameClocksKeepPulses(c: Config, s: State)
    requires PulseInv(s.p0) && PulseInv(s.p1)
    ensures PulseInv(FrameClocks(c, s).p0) && PulseInv(FrameClocks(c, s).p1)
  {
    hide ClockFrame, PulseInv, QuarterAt, HalfAt, ModeAfter, FrameTime;
    var a := if WriteLands(s.fc) && ModeAfter(s.fc) then ClockFrame(c, s, true) else s;
    ClockKeepsPulses(c, s);
    ClockKeepsPulses(c, a);
  }

  lemma ClockKeepsPulses(c: Config, t: State)
    requires PulseInv(t.p0) && PulseInv(t.p1)
    ensures forall half :: PulseInv(ClockFrame(c, t, half).p0) && PulseInv(ClockFrame(c, t, half).p1)
  {
    hide PulseSweep, TriLinear, NoiseEnv, EnvClock, LenClock;
    var u := ClockLengths(ClockEnvelopes(t));
    SweepInRange(u.p0, c.sweepEnabled, 0);
    SweepInRange(u.p1, c.sweepEnabled, 1);
  }

  /** Fields the DMC's timer and output unit never touch. */
  predicate SameReader(d: Dmc, e: Dmc) {
    && e.irqEn == d.irqEn && e.loop == d.loop && e.rateIdx == d.rateIdx && e.startAddr == d.startAddr
    && e.startLen == d.startLen && e.curAddr == d.curAddr && e.bytesRem == d.bytesRem
    && e.sampleBuf == d.sampleBuf && e.period == d.period && e.irqFlag == d.irqFlag
    && e.dmaPending == d.dmaPending && e.dmaAbort == d.dmaAbort && e.startDelay == d.startDelay
  }

  /** The timer half of a tick: the buffer is only ever taken, and only on an even cycle. */
  lemma TimerEffect(d: Dmc, cycle: nat)
    requires 1 <= d.bitsRem <= 8 && d.timer >= 0
    ensures var e := DmcTimer(d, cycle);
      && 1 <= e.bitsRem <= 8 && e.timer >= 0 && SameReader(d, e)
      && (d.bufEmpty ==> e.bufEmpty) && (e.bufEmpty && !d.bufEmpty ==> cycle % 2 == 0)
  {
    hide DmcOutput, SameReader;
    OutputEffect(d);
    SameReaderTimer(d);
  }

  lemma SameReaderTimer(d: Dmc)
    ensures SameReader(d, d) && SameReader(d, d.(timer := d.timer - 1))
  {
  }

  lemma OutputEffect(d: Dmc)
    requires 1 <= d.bitsRem <= 8
    ensures var e := DmcOutput(d);
      && 1 <= e.bitsRem <= 8 && e.timer >= 0 && SameReader(d, e) && (d.bufEmpty ==> e.bufEmpty)
  {
    hide DmcLevel;
  }

  lemma DmcKept(c: Config, d: Dmc, cycle: nat)
    requires DmcInv(c, d, cycle)
    ensures DmcInv(c, TickDmc(c, d, cycle + 1), cycle + 1)
  {
    hide DmcTimer, DmcReader, DmcInv;
    DmcKeptParts(c, d, cycle);
    if c.dmcEnabled {
      TimerEffect(d, cycle + 1);
      ReaderKept(c, d, DmcTimer(d, cycle + 1), cycle);
    }
  }

  lemma DmcKeptParts(c: Config, d: Dmc, cycle: nat)
    requires DmcInv(c, d, cycle)
    ensures 1 <= d.bitsRem <= 8 && d.timer >= 0 && (!c.dmcEnabled ==> DmcInv(c, d, cycle + 1))
  {
  }

  /** The reader half of a tick, after a timer half that at most took the buffer, on an even cycle. */
  lemma ReaderKept(c: Config, d: Dmc, e: Dmc, cycle: nat)
    requires DmcInv(c, d, cycle) && SameReader(d, e) && 1 <= e.bitsRem <= 8 && e.timer >= 0 && c.dmcEnabled
    requires (d.bufEmpty ==> e.bufEmpty) && (e.bufEmpty && !d.bufEmpty ==> (cycle + 1) % 2 == 0)
    ensures DmcInv(c, DmcReader(c, e), cycle + 1)
  {
    hide DmcFill;
    var w := if e.startDelay > 0 then e.(startDelay := e.startDelay - 1) else e;
    if c.memRead.Some? { FilledParts(w, ReadByte(c.memRead.value, w.curAddr)); }
  }

  /** What a delivered byte leaves of the reader's counters. */
  predicate FillKept(d: Dmc, b: int) {
    var f := DmcFill(d, b);
    && f.bitsRem == d.bitsRem && f.timer == d.timer && f.period == d.period && f.startLen == d.startLen
    && f.startDelay == d.startDelay && !f.dmaPending && (d.bytesRem > 0 ==> !f.bufEmpty)
    && (d.bytesRem >= 0 && d.startLen >= 0 ==> f.bytesRem >= 0)
  }

  lemma FilledParts(d: Dmc, b: int)
    ensures FillKept(d, b)
  {
  }

  lemma FrameKept(c: Config, f: Frame, cycle: nat)
    requires FrameInv(f, cycle)
    ensures FrameInv(TickFrame(c, f, cycle + 1), cycle + 1)
  {
  }

  lemma InvTick(c: Config, s: State)
    requires Inv(c, s)
    ensures Inv(c, Tick(c, s))
  {
    hide Tick, TickDmc, TickFrame, DmcInv, FrameInv, PulseInv;
    TickParts(c, s);
    PulsesKept(c, s);
    DmcKept(c, s.dmc, s.cycle);
    FrameKept(c, s.fc, s.cycle);
  }

  lemma InvWrite(c: Config, s: State, addr: int, v: int)
    requires Inv(c, s) && 0 <= v < 256
    ensures Inv(c, Write(c, s, addr, v))
  {
    hide Bit, WriteTri, WriteNoise, WritePulse, WriteDmc, DmcStatus, WriteFrame, DmcInv, FrameInv, PulseInv;
    if 0x4000 <= addr <= 0x4003 { WritePulseKept(c, s.p0, addr - 0x4000, v, s.chEn[0]); }
    if 0x4004 <= addr <= 0x4007 { WritePulseKept(c, s.p1, addr - 0x4004, v, s.chEn[1]); }
    if 0x4010 <= addr <= 0x4013 { WriteDmcKept(c, s.dmc, addr, v, s.cycle); }
    if addr == 0x4015 {
      DmcStatusKept(c, s.dmc, Bit(v, 4) && c.dmcEnabled, s.cycle);
      LenKeepsPulse(s.p0);
      LenKeepsPulse(s.p1);
    }
    if addr == 0x4017 { WriteFrameKept(c, s, v); }
  }

  lemma LenKeepsPulse(p: Pulse)
    requires PulseInv(p)
    ensures PulseInv(p.(len := 0))
  {
  }

  lemma WritePulseKept(c: Config, p: Pulse, reg: int, v: int, en: bool)
    requires PulseInv(p) && 0 <= reg <= 3 && 0 <= v < 256
    ensures PulseInv(WritePulse(c, p, reg, v, en))
  {
    hide Bit, PeriodLow, PeriodHigh;
    PeriodBytes(p.timerPeriod, v);
  }

  lemma PeriodBytes(p: int, v: int)
    requires 0 <= p <= 0x7FF && 0 <= v < 256
    ensures 0 <= PeriodLow(p, v) <= 0x7FF && 0 <= PeriodHigh(p, v) <= 0x7FF
  {
  }

  lemma WriteDmcKept(c: Config, d: Dmc, addr: int, v: int, cycle: nat)
    requires DmcInv(c, d, cycle) && 0 <= v < 256
    ensures DmcInv(c, WriteDmc(c, d, addr, v), cycle)
  {
    hide Bit, DmcRate, DmcInv, WriteDmc;
    DmcInvSigns(c, d, cycle);
    WriteDmcFields(c, d, addr, v);
    DmcInvCongruent(c, d, WriteDmc(c, d, addr, v), cycle);
  }

  /** The fields a DMC register write leaves alone. */
  predicate SamePlayback(d: Dmc, e: Dmc) {
    && e.bitsRem == d.bitsRem && e.timer == d.timer && e.bytesRem == d.bytesRem
    && e.startDelay == d.startDelay && e.bufEmpty == d.bufEmpty && e.dmaPending == d.dmaPending
  }

  lemma WriteDmcFields(c: Config, d: Dmc, addr: int, v: int)
    requires RatePeriod(d.period) && d.startLen >= 0 && 0 <= v < 256
    ensures var e := WriteDmc(c, d, addr, v); RatePeriod(e.period) && e.startLen >= 0 && SamePlayback(d, e)
  {
    hide WriteDmcControl, RatePeriod, SamePlayback;
    WriteDmcControlFields(d, v);
    SingleUpdates(d, v);
  }

  lemma SingleUpdates(d: Dmc, v: int)
    ensures SamePlayback(d, d) && SamePlayback(d, d.(level := v % 128)) && SamePlayback(d, d.(irqFlag := false))
    ensures SamePlayback(d, d.(startAddr := 0xC000 + v * 64)) && SamePlayback(d, d.(startLen := v * 16 + 1))
  {
  }

  lemma WriteDmcControlFields(d: Dmc, v: int)
    ensures var e := WriteDmcControl(d, v);
      RatePeriod(e.period) && e.startLen == d.startLen && SamePlayback(d, e)
  {
    hide Bit, DmcRate, RatePeriod;
    RateIsPeriod(v % 16);
  }

  lemma RateIsPeriod(i: int)
    ensures RatePeriod(DmcRate(i))
  {
  }

  lemma DmcInvSigns(c: Config, d: Dmc, cycle: nat)
    requires DmcInv(c, d, cycle)
    ensures RatePeriod(d.period) && d.startLen >= 0
  {
  }

  lemma DmcInvCongruent(c: Config, d: Dmc, e: Dmc, cycle: nat)
    requires DmcInv(c, d, cycle) && RatePeriod(e.period) && e.startLen >= 0
    requires e.bitsRem == d.bitsRem && e.timer == d.timer && e.bytesRem == d.bytesRem
    requires e.startDelay == d.startDelay && e.bufEmpty == d.bufEmpty && e.dmaPending == d.dmaPending
    ensures DmcInv(c, e, cycle)
  {
  }

  lemma DmcStatusKept(c: Config, d: Dmc, en: bool, cycle: nat)
    requires DmcInv(c, d, cycle) && (en ==> c.dmcEnabled)
    ensures DmcInv(c, DmcStatus(d, en, cycle), cycle)
  {
  }

  lemma WriteFrameKept(c: Config, s: State, v: int)
    requires FrameInv(s.fc, s.cycle)
    ensures WriteFrame(c, s, v) == s.(fc := WriteFrame(c, s, v).fc) && FrameInv(WriteFrame(c, s, v).fc, s.cycle)
  {
    hide Bit;
  }

  lemma InvFill(c: Config, s: State, b: int)
    requires Inv(c, s) && (s.dmc.dmaPending || s.dmc.bytesRem == 0)
    ensures Inv(c, Fill(s, b))
  {
  }

  function RunOps(c: Config, s: State, ops: seq<Op>): (r: Option<State>)
    requires Inv(c, s)
    ensures r.Some? ==> Inv(c, r.value)
    decreases |ops|
  {
    if ops == [] then Some(s)
    else if !Allowed(s, ops[0]) then None
    else
      InvApply(c, s, ops[0]);
      RunOps(c, Apply(c, s, ops[0]), ops[1..])
  }

  lemma InvApply(c: Config, s: State, op: Op)
    requires Inv(c, s) && Allowed(s, op)
    ensures Inv(c, Apply(c, s, op))
  {
    hide Inv, Tick, Write, Fill;
    match op {
      case Cycle => InvTick(c, s);
      case WriteReg(addr, v) => InvWrite(c, s, addr, v);
      case ReadStatus => InvRead(c, s);
      case Deliver(b) => InvFill(c, s, b);
    }
  }

  lemma InvRead(c: Config, s: State)
    requires Inv(c, s)
    ensures Inv(c, AfterRead(s))
  {
  }

  /** From reset, whatever the CPU does. */
  lemma InvInit(c: Config)
    ensures Inv(c, InitState())
  {
  }

  /** The unit after reset. */
  function Reset(c: Config): (s: State)
    ensures Inv(c, s)
  {
    InvInit(c);
    InitState()
  }

  // ------------------------------------------------------------- quiet stretches

  /** What the CPU sees without touching a register. */
  datatype Seen = Seen(frameIrq: bool, dmcIrq: bool, dmaPending: bool)

  function Visible(s: State): Seen { Seen(s.fc.irq, s.dmc.irqFlag, s.dmc.dmaPending) }

  /** The frame counter raises nothing within n more cycles. */
  predicate FrameQuiet(c: Config, f: Frame, n: nat) {
    && f.writeDelay == 0 && !f.clearPending
    && (n > 0 && !f.mode5 && c.frameIrqEnabled && !f.irqInhibit ==> f.div + n < 29828)
  }

  /** The DMC's reader does nothing within n more cycles. */
  predicate DmcQuiet(c: Config, d: Dmc, cycle: nat, n: nat) {
    c.dmcEnabled ==>
      && d.startDelay == 0
      && (d.bufEmpty && d.bytesRem > 0 ==> d.dmaPending)
      && (!d.bufEmpty && d.bytesRem > 0 ==> n < ExpiryTicks(d, cycle))
  }

  /** The prediction is safe: fewer cycles than it are quiet. */
  lemma PredictedIsQuiet(c: Config, s: State, n: nat)
    requires Inv(c, s) && n < UntilEvent(c, s)
    ensures FrameQuiet(c, s.fc, n) && DmcQuiet(c, s.dmc, s.cycle, n)
  {
    hide ExpiryTicks;
  }

  lemma FrameStaysQuiet(c: Config, f: Frame, cycle: nat, n: nat)
    requires FrameInv(f, cycle) && FrameQuiet(c, f, n + 1)
    ensures var g := TickFrame(c, f, cycle + 1); FrameQuiet(c, g, n) && g.irq == f.irq
  {
  }

  /** At an expiry the timer reloads at least half a period. */
  lemma ReloadAtLeastHalf(p: int)
    requires RatePeriod(p)
    ensures (p / 2 - 1) % 65536 + 1 >= p / 2 >= 0
    ensures p > 0 ==> (p / 2 - 1) % 65536 + 1 == p / 2
  {
  }

  lemma PeriodsStep(b: int, h: int)
    requires h >= 0
    ensures PeriodsLeft(b, h) == PeriodsLeft(b - 1, h) + h
    ensures PeriodsLeft(1, h) == 0 && (b >= 1 ==> PeriodsLeft(b, h) >= 0)
  {
  }

  /** Counting down, the closed form never overestimates. */
  lemma ExpiryCountsDown(d: Dmc, cycle: nat)
    requires 1 <= d.bitsRem <= 8 && d.timer >= 0 && RatePeriod(d.period) && ExpiryTicks(d, cycle) > 1
    ensures var e := DmcTimer(d, cycle + 1);
      ExpiryTicks(e, cycle + 1) >= ExpiryTicks(d, cycle) - 1 && e.bufEmpty == d.bufEmpty
    ensures d.period > 0 ==> ExpiryTicks(DmcTimer(d, cycle + 1), cycle + 1) == ExpiryTicks(d, cycle) - 1
  {
    hide DmcOutput, PeriodsLeft;
    PeriodsStep(d.bitsRem, d.period / 2);
    if (cycle + 1) % 2 == 0 && d.timer == 0 {
      ReloadAtLeastHalf(d.period);
      OutputCounts(d);
    }
  }

  lemma OutputCounts(d: Dmc)
    requires 2 <= d.bitsRem <= 8
    ensures var e := DmcOutput(d);
      && e.bitsRem == d.bitsRem - 1 && e.period == d.period && e.bufEmpty == d.bufEmpty
      && e.timer == (d.period / 2 - 1) % 65536
  {
    hide DmcLevel;
  }

  lemma DmcStaysQuiet(c: Config, d: Dmc, cycle: nat, n: nat)
    requires DmcInv(c, d, cycle) && DmcQuiet(c, d, cycle, n + 1)
    ensures var e := TickDmc(c, d, cycle + 1);
      DmcQuiet(c, e, cycle + 1, n) && e.irqFlag == d.irqFlag && e.dmaPending == d.dmaPending
  {
    hide DmcTimer, ExpiryTicks;
    TimerEffect(d, cycle + 1);
    if !d.bufEmpty && d.bytesRem > 0 && c.dmcEnabled {
      ExpiryCountsDown(d, cycle);
      ExpiryIgnoresPending(DmcTimer(d, cycle + 1), cycle + 1);
    }
  }

  lemma ExpiryIgnoresPending(d: Dmc, cycle: nat)
    ensures ExpiryTicks(d.(dmaPending := true), cycle) == ExpiryTicks(d, cycle)
  {
  }

  /** In a quiet stretch the CPU sees the same thing after every cycle. */
  lemma {:induction false} QuietStretch(c: Config, s: State, n: nat)
    requires Inv(c, s) && FrameQuiet(c, s.fc, n) && DmcQuiet(c, s.dmc, s.cycle, n)
    ensures Visible(TickN(c, s, n)) == Visible(s)
    decreases n
  {
    hide Tick, Inv, FrameQuiet, DmcQuiet, TickFrame, TickDmc, FrameInv, DmcInv;
    if n > 0 {
      InvParts(c, s);
      TickParts(c, s);
      InvTick(c, s);
      FrameStaysQuiet(c, s.fc, s.cycle, n - 1);
      DmcStaysQuiet(c, s.dmc, s.cycle, n - 1);
      QuietStretch(c, Tick(c, s), n - 1);
    }
  }

  lemma InvParts(c: Config, s: State)
    requires Inv(c, s)
    ensures |s.chEn| == 5 && DmcInv(c, s.dmc, s.cycle) && FrameInv(s.fc, s.cycle)
  {
    hide DmcInv, FrameInv, PulseInv;
  }

  /** Fewer cycles than predicted change none of the frame IRQ, the DMC IRQ and the DMA request. */
  lemma PredictorIsSafe(c: Config, s: State, n: nat)
    requires Inv(c, s) && n < UntilEvent(c, s)
    ensures Visible(TickN(c, s, n)) == Visible(s)
  {
    hide Inv, FrameQuiet, DmcQuiet, UntilEvent;
    PredictedIsQuiet(c, s, n);
    QuietStretch(c, s, n);
  }

  // ------------------------------------------------------------ the DMC alone

  /** n cycles of the DMC; nothing else in the unit influences it. */
  function DmcN(c: Config, d: Dmc, cycle: nat, n: nat): Dmc
    decreases n
  {
    if n == 0 then d else DmcN(c, TickDmc(c, d, cycle + 1), cycle + 1, n - 1)
  }

  lemma TickIgnoresDmc(c: Config, s: State, e: Dmc)
    ensures Tick(c, s.(dmc := e)) == Tick(c, s).(dmc := TickDmc(c, e, s.cycle + 1))
  {
    hide TickTri, TickPulse, TickNoise, TickDmc, TickFrame, FrameClocks;
    var b := s.(cycle := s.cycle + 1, apuClk := !s.apuClk, tri := TickTri(s.tri));
    var b' := if b.apuClk then b.(p0 := TickPulse(b.p0), p1 := TickPulse(b.p1), noise := TickNoise(b.noise)) else b;
    FrameClocksIgnoresDmc(c, b', TickDmc(c, s.dmc, s.cycle + 1));
    FrameClocksIgnoresDmc(c, b', TickDmc(c, e, s.cycle + 1));
  }

  lemma FrameClocksIgnoresDmc(c: Config, s: State, e: Dmc)
    ensures FrameClocks(c, s.(dmc := e)) == FrameClocks(c, s).(dmc := e)
  {
    hide ClockFrame, QuarterAt, HalfAt, ModeAfter, FrameTime, WriteLands;
    ClockIgnoresDmc(c, s, e);
    if WriteLands(s.fc) && ModeAfter(s.fc) { ClockIgnoresDmc(c, ClockFrame(c, s, true), e); }
  }

  lemma ClockIgnoresDmc(c: Config, s: State, e: Dmc)
    ensures forall half :: ClockFrame(c, s.(dmc := e), half) == ClockFrame(c, s, half).(dmc := e)
    ensures forall half :: ClockFrame(c, s, half).fc == s.fc
  {
    hide ClockEnvelopes, ClockLengthsSweep;
    EnvelopesIgnoreDmc(s, e);
    SweepsIgnoreDmc(c, s, e);
    SweepsIgnoreDmc(c, ClockEnvelopes(s), e);
  }

  lemma EnvelopesIgnoreDmc(s: State, e: Dmc)
    ensures ClockEnvelopes(s.(dmc := e)) == ClockEnvelopes(s).(dmc := e) && ClockEnvelopes(s).fc == s.fc
  {
    hide PulseEnv, NoiseEnv, TriLinear;
  }

  lemma SweepsIgnoreDmc(c: Config, s: State, e: Dmc)
    ensures ClockLengthsSweep(c, s.(dmc := e)) == ClockLengthsSweep(c, s).(dmc := e) && ClockLengthsSweep(c, s).fc == s.fc
  {
    hide PulseSweep, LenClock;
  }

  lemma {:induction false} TickNIgnoresDmc(c: Config, s: State, e: Dmc, n: nat)
    ensures TickN(c, s.(dmc := e), n) == TickN(c, s, n).(dmc := DmcN(c, e, s.cycle, n))
    ensures TickN(c, s, n).dmc == DmcN(c, s.dmc, s.cycle, n) && TickN(c, s, n).cycle == s.cycle + n
    decreases n
  {
    hide Tick, TickDmc;
    if n > 0 {
      TickParts(c, s);
      TickIgnoresDmc(c, s, e);
      TickNIgnoresDmc(c, Tick(c, s), TickDmc(c, e, s.cycle + 1), n - 1);
      assert Tick(c, s.(dmc := e)).cycle == s.cycle + 1;
    }
  }

  /** A reload DMA is asked for on even cycles only, the first fetch after an enable on odd ones. */
  lemma RequestParity(c: Config, d: Dmc, cycle: nat)
    requires DmcInv(c, d, cycle) && c.dmaExternal && !d.dmaPending
    requires TickDmc(c, d, cycle + 1).dmaPending
    ensures if d.startDelay > 0 then (cycle + 1) % 2 == 1 else !d.bufEmpty && (cycle + 1) % 2 == 0
  {
    hide DmcTimer;
    TimerEffect(d, cycle + 1);
  }

  /** The buffer is about to be taken on the next cycle. */
  predicate TakesNow(d: Dmc, cycle: nat) {
    (cycle + 1) % 2 == 0 && d.timer == 0 && d.bitsRem == 1
  }

  /** The closed form says 1 exactly when the buffer is taken next. */
  lemma PredictedNow(d: Dmc, cycle: nat)
    requires 1 <= d.bitsRem <= 8 && d.timer >= 0 && RatePeriod(d.period)
    ensures ExpiryTicks(d, cycle) >= 1
    ensures d.period > 0 ==> (ExpiryTicks(d, cycle) == 1 <==> TakesNow(d, cycle))
    ensures TakesNow(d, cycle) ==> ExpiryTicks(d, cycle) == 1
  {
    hide PeriodsLeft;
    PeriodsStep(d.bitsRem, d.period / 2);
    PeriodsPositive(d.bitsRem, d.period / 2);
  }

  lemma PeriodsPositive(b: int, h: int)
    requires b >= 1 && h >= 0
    ensures PeriodsLeft(b, h) >= 0 && (b > 1 && h > 0 ==> PeriodsLeft(b, h) > 0)
    ensures b == 1 || h == 0 ==> PeriodsLeft(b, h) == 0
  {
  }

  /** Playing with bytes left: the state in which the reload is predicted. */
  predicate Playing(c: Config, d: Dmc, cycle: nat) {
    DmcInv(c, d, cycle) && c.dmcEnabled && c.dmaExternal && d.startDelay == 0 && !d.bufEmpty && d.bytesRem > 0
  }

  lemma PlayingOneCycle(c: Config, d: Dmc, cycle: nat)
    requires Playing(c, d, cycle)
    ensures var e := TickDmc(c, d, cycle + 1);
      && (TakesNow(d, cycle) ==> e.dmaPending)
      && (!TakesNow(d, cycle) ==>
            && Playing(c, e, cycle + 1) && !e.dmaPending && e == DmcTimer(d, cycle + 1))
  {
    hide DmcInv, DmcTimer;
    DmcKept(c, d, cycle);
    PlayingParts(c, d, cycle);
    TimerEffect(d, cycle + 1);
    TimerTakes(d, cycle);
  }

  lemma PlayingParts(c: Config, d: Dmc, cycle: nat)
    requires DmcInv(c, d, cycle)
    ensures 1 <= d.bitsRem <= 8 && d.timer >= 0 && RatePeriod(d.period) && (!d.bufEmpty ==> !d.dmaPending)
  {
  }

  lemma TimerTakes(d: Dmc, cycle: nat)
    requires 1 <= d.bitsRem <= 8 && d.timer >= 0 && !d.bufEmpty
    ensures DmcTimer(d, cycle + 1).bufEmpty <==> TakesNow(d, cycle)
  {
    hide DmcLevel;
  }

  /** With a table period the reload request comes on exactly the predicted cycle. */
  lemma {:induction false} ReloadExactly(c: Config, d: Dmc, cycle: nat, n: nat)
    requires Playing(c, d, cycle) && d.period > 0
    ensures n < ExpiryTicks(d, cycle) ==> !DmcN(c, d, cycle, n).dmaPending
    ensures n == ExpiryTicks(d, cycle) ==> DmcN(c, d, cycle, n).dmaPending
    decreases n
  {
    hide DmcInv, ExpiryTicks, DmcTimer, TickDmc, TakesNow;
    PlayingParts(c, d, cycle);
    PredictedNow(d, cycle);
    if n > 0 && n <= ExpiryTicks(d, cycle) {
      PlayingOneCycle(c, d, cycle);
      if !TakesNow(d, cycle) {
        ExpiryCountsDown(d, cycle);
        SameRate(d, cycle + 1);
        ReloadExactly(c, TickDmc(c, d, cycle + 1), cycle + 1, n - 1);
      }
    }
  }

  lemma SameRate(d: Dmc, cycle: nat)
    ensures DmcTimer(d, cycle).period == d.period
  {
    hide DmcOutput;
    SameRateOutput(d);
  }

  lemma SameRateOutput(d: Dmc)
    ensures DmcOutput(d).period == d.period
  {
    hide DmcLevel;
  }

  /** Before $4010 was ever written the period is 0 and the prediction is early, unless only one
      bit is left: still safe, no longer exact. */
  lemma {:induction false} UnsetRateIsEarly(c: Config, d: Dmc, cycle: nat, n: nat)
    requires Playing(c, d, cycle) && d.period == 0 && n == ExpiryTicks(d, cycle)
    ensures DmcN(c, d, cycle, n).dmaPending <==> d.bitsRem == 1
    decreases n
  {
    hide DmcInv, DmcTimer, TickDmc, PeriodsLeft;
    PlayingParts(c, d, cycle);
    PeriodsPositive(d.bitsRem, 0);
    PlayingOneCycle(c, d, cycle);
    UnsetRateTimer(d, cycle);
    if n > 1 {
      UnsetRateIsEarly(c, TickDmc(c, d, cycle + 1), cycle + 1, n - 1);
    } else {
      assert DmcN(c, TickDmc(c, d, cycle + 1), cycle + 1, 0) == TickDmc(c, d, cycle + 1);
    }
  }

  lemma UnsetRateTimer(d: Dmc, cycle: nat)
    requires d.period == 0 && 1 <= d.bitsRem <= 8 && d.timer >= 0
    ensures var e := DmcTimer(d, cycle + 1);
      e.period == 0 && (2 * (d.timer + 1) - cycle % 2 > 1 ==>
        e.bitsRem == d.bitsRem && 2 * (e.timer + 1) - (cycle + 1) % 2 == 2 * (d.timer + 1) - cycle % 2 - 1)
  {
    hide DmcOutput;
    OutputEffect(d);
  }
}
