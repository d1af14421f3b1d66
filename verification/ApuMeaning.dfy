/** The 2A03's units in plain numbers: closed forms for what their counters do over any number of clocks, and what
    each register field sets. */
module ApuMeaning {
  import opened Arithmetic
  import opened Runs
  import opened Apu
  import opened ApuLazy
  import opened ApuFrame

  // ---------------------------------------------------------------------- counters

  /** A counter that counts down to zero and is then set to top again: what it shows after n clocks, ... */
  function Shows(n: nat, count: nat, top: nat): int {
    if n <= count then count - n else top - (n - count - 1) % (top + 1)
  }

  /** ... and how often it was set. */
  function Expiries(n: nat, count: nat, top: nat): nat {
    if n <= count then 0 else 1 + (n - count - 1) / (top + 1)
  }

  lemma CounterStep(n: nat, count: nat, top: nat)
    ensures 0 <= Shows(n, count, top)
    ensures Shows(n + 1, count, top) == if Shows(n, count, top) > 0 then Shows(n, count, top) - 1 else top
    ensures Expiries(n + 1, count, top) == Expiries(n, count, top) + if Shows(n, count, top) > 0 then 0 else 1
  {
    if n > count { NextQuotient(n - count - 1, top + 1); } else { DivUnique(0, top + 1, 0, 0); }
  }

  lemma NextQuotient(k: nat, m: nat)
    requires m > 0
    ensures (k + 1) / m == k / m + (if k % m == m - 1 then 1 else 0) && (k + 1) % m == if k % m == m - 1 then 0 else k % m + 1
    ensures 0 <= k % m < m
  {
    var q, r := k / m, k % m;
    assert k == q * m + r;
    if r == m - 1 {
      assert k + 1 == (q + 1) * m + 0;
      DivUnique(k + 1, m, q + 1, 0);
    } else {
      DivUnique(k + 1, m, q, r + 1);
    }
  }

  // --------------------------------------------------------------------- envelopes

  /** n clocks of an envelope that is running: its divider counts down again and again, and each time the decay
      level falls by one, staying at 0 or (looping) starting over at 15. */
  lemma {:induction false} EnvelopeDecays(e: Env, n: nat)
    requires !e.start && e.div >= 0 && 0 <= e.dec <= 15 && e.vol >= 0
    ensures var f, r := EnvN(e, n), Expiries(n, e.div, e.vol);
      && f == e.(div := Shows(n, e.div, e.vol), dec := f.dec)
      && f.dec == if e.halt then (e.dec - r) % 16 else if e.dec >= r then e.dec - r else 0
    decreases n
  {
    hide EnvStep, Shows, Expiries;
    if n == 0 {
      CounterStart(e.div, e.vol);
    } else {
      EnvelopeDecays(e, n - 1);
      EnvNLast(e, n - 1);
      CounterStep(n - 1, e.div, e.vol);
      EnvOne(EnvN(e, n - 1));
    }
  }

  lemma CounterStart(count: nat, top: nat)
    ensures Shows(0, count, top) == count && Expiries(0, count, top) == 0
  {
  }

  lemma EnvNLast(e: Env, n: nat)
    ensures EnvN(e, n + 1) == EnvStep(EnvN(e, n))
  {
    hide EnvStep;
    EnvNAdds(e, n, 1);
    assert EnvN(EnvStep(EnvN(e, n)), 0) == EnvStep(EnvN(e, n));
  }

  lemma EnvOne(e: Env)
    requires !e.start
    ensures EnvStep(e) ==
      if e.div > 0 then e.(div := e.div - 1)
      else e.(div := e.vol, dec := if e.dec > 0 then e.dec - 1 else if e.halt then 15 else e.dec)
  {
  }

  /** A note's envelope: the first clock sets the level to 15, and it is one lower every vol + 1 clocks. */
  lemma NoteDecays(e: Env, n: nat)
    requires e.start && 0 <= e.vol && n > 0
    ensures var f, r := EnvN(e, n), (n - 1) / (e.vol + 1);
      !f.start && f.dec == if e.halt then (15 - r) % 16 else if r <= 15 then 15 - r else 0
  {
    hide EnvStep, EnvClock;
    EnvFirst(e);
    EnvelopeDecays(EnvStep(e), n - 1);
    NoteExpiries(n - 1, e.vol);
  }

  lemma EnvFirst(e: Env)
    requires e.start
    ensures EnvStep(e) == e.(div := e.vol, dec := 15, start := false)
  {
  }

  lemma NoteExpiries(n: nat, top: nat)
    ensures Expiries(n, top, top) == n / (top + 1)
  {
    if n <= top { DivUnique(n, top + 1, 0, n); }
    else { DivUnique(n, top + 1, (n - top - 1) / (top + 1) + 1, (n - top - 1) % (top + 1)); }
  }

  // --------------------------------------------------------- a half-frame clock, per unit

  function Power(k: int): (w: nat)
    ensures w > 0
  {
    match k case 0 => 1 case 1 => 2 case 2 => 4 case 3 => 8 case 4 => 16 case 5 => 32 case 6 => 64 case _ => 128
  }

  /** The period a sweep leaves: it moves down by itself over 2^k (and one more on the first pulse) when negated, else
      up; it stays when the sweep is off, its divider runs, the period is below 8, or the new one would be above 0x7FF. */
  predicate Swept(enabled: bool, p: Pulse, first: bool, period: int) {
    var k, was := p.sweepShift, p.timerPeriod;
    if !enabled || !p.sweepEn || k == 0 || p.sweepDiv != 0 then period == was
    else if was < 8 || (!p.sweepNeg && was + was / Power(k) > 0x7FF) then period == was
    else if p.sweepNeg then period + was / Power(k) + (if first then 1 else 0) == was
    else period == was + was / Power(k)
  }

  lemma SweepMoves(p: Pulse, enabled: bool, ch: int)
    requires PulseInv(p) && 0 <= ch <= 1
    ensures var q := PulseSweep(p, enabled, ch);
      && Swept(enabled, p, ch == 0, q.timerPeriod)
      && q.sweepDiv == (if p.sweepDiv == 0 || p.sweepReload then p.sweepPeriod else p.sweepDiv - 1)
      && q == p.(timerPeriod := q.timerPeriod, sweepDiv := q.sweepDiv, sweepReload := false)
  {
    hide SweepTarget, SweepMute, SweepDelta, Power;
    var k, was := p.sweepShift, p.timerPeriod;
    if k > 0 {
      DeltaIs(was, k);
      TargetIs(was, k, p.sweepNeg, ch, was / Power(k));
    }
  }

  lemma TargetIs(was: int, k: int, neg: bool, ch: int, delta: int)
    requires 0 <= was <= 0x7FF && 0 < k <= 7 && 0 <= ch <= 1
    requires SweepDelta(was, k) == delta && 0 <= delta <= was && (was >= 8 ==> delta + 1 < was)
    ensures SweepMute(was, k, neg, ch) <==> was < 8 || (!neg && was + delta > 0x7FF)
    ensures was >= 8 && neg ==> SweepTarget(was, k, neg, ch) == was - delta - if ch == 0 then 1 else 0
    ensures !neg ==> SweepTarget(was, k, neg, ch) == was + delta
  {
    hide SweepDelta;
  }

  lemma DeltaIs(was: int, k: int)
    requires 0 <= was <= 0x7FF && 0 < k <= 7
    ensures SweepDelta(was, k) == was / Power(k) && 0 <= SweepDelta(was, k) <= was && (was >= 8 ==> SweepDelta(was, k) + 1 < was)
  {
  }

  /** A half-frame clock moves each pulse's envelope, length and sweep, the noise's envelope and length and the triangle's
      two counters, and nothing else. */
  lemma HalfFrame(c: Config, s: State)
    requires PulseInv(s.p0) && PulseInv(s.p1)
    ensures var t := ClockFrame(c, s, true);
      && t == s.(p0 := t.p0, p1 := t.p1, tri := t.tri, noise := t.noise)
      && PulseClocked(c.sweepEnabled, s.p0, t.p0, true) && PulseClocked(c.sweepEnabled, s.p1, t.p1, false)
      && t.noise == s.noise.(envDiv := t.noise.envDiv, envDec := t.noise.envDec, envStart := t.noise.envStart, len := t.noise.len)
      && NoiseView(t.noise) == EnvN(NoiseView(s.noise), 1) && CountedDown(s.noise.halt, s.noise.len, t.noise.len)
      && t.tri == s.tri.(lin := t.tri.lin, linReload := s.tri.linReload && s.tri.halt, len := t.tri.len)
      && CountedDown(s.tri.halt, s.tri.len, t.tri.len)
      && t.tri.lin == if s.tri.linReload then s.tri.linLoad else if s.tri.lin > 0 then s.tri.lin - 1 else s.tri.lin
  {
    hide PulseSweep, PulseEnv, NoiseEnv, Swept;
    PulseHalf(s.p0, c.sweepEnabled, 0);
    PulseHalf(s.p1, c.sweepEnabled, 1);
    EnvParts(s.p0, s.noise);
  }

  /** A quarter-frame clock moves the three envelopes and the triangle's linear counter, and nothing else. */
  lemma QuarterFrame(c: Config, s: State)
    ensures var t := ClockFrame(c, s, false);
      && t == s.(p0 := t.p0, p1 := t.p1, tri := t.tri, noise := t.noise)
      && t.p0 == s.p0.(envDiv := t.p0.envDiv, envDec := t.p0.envDec, envStart := t.p0.envStart)
      && t.p1 == s.p1.(envDiv := t.p1.envDiv, envDec := t.p1.envDec, envStart := t.p1.envStart)
      && t.noise == s.noise.(envDiv := t.noise.envDiv, envDec := t.noise.envDec, envStart := t.noise.envStart)
      && PulseView(t.p0) == EnvN(PulseView(s.p0), 1) && PulseView(t.p1) == EnvN(PulseView(s.p1), 1)
      && NoiseView(t.noise) == EnvN(NoiseView(s.noise), 1)
      && t.tri == s.tri.(lin := t.tri.lin, linReload := s.tri.linReload && s.tri.halt)
      && t.tri.lin == if s.tri.linReload then s.tri.linLoad else if s.tri.lin > 0 then s.tri.lin - 1 else s.tri.lin
  {
    hide PulseEnv, NoiseEnv;
    EnvParts(s.p0, s.noise);
    EnvParts(s.p1, s.noise);
  }

  /** A length counter, unless halted, goes down to zero. */
  predicate CountedDown(halt: bool, was: int, len: int) {
    if halt || was <= 0 then len == was else len + 1 == was
  }

  /** A pulse before and after a half-frame clock. */
  predicate PulseClocked(enabled: bool, p: Pulse, q: Pulse, first: bool) {
    && PulseView(q) == EnvN(PulseView(p), 1) && CountedDown(p.halt, p.len, q.len)
    && Swept(enabled, p, first, q.timerPeriod)
    && q.sweepDiv == (if p.sweepDiv == 0 || p.sweepReload then p.sweepPeriod else p.sweepDiv - 1)
    && q == p.(envDiv := q.envDiv, envDec := q.envDec, envStart := q.envStart, len := q.len,
               timerPeriod := q.timerPeriod, sweepDiv := q.sweepDiv, sweepReload := false)
  }

  lemma PulseHalf(p: Pulse, enabled: bool, ch: int)
    requires PulseInv(p) && 0 <= ch <= 1
    ensures var e := PulseEnv(p); PulseClocked(enabled, p, PulseSweep(e.(len := LenClock(e.halt, e.len)), enabled, ch), ch == 0)
  {
    hide PulseSweep, PulseEnv, EnvStep;
    EnvParts(p, InitState().noise);
    var e := PulseEnv(p);
    SweepMoves(e.(len := LenClock(e.halt, e.len)), enabled, ch);
  }

  lemma EnvParts(p: Pulse, n: Noise)
    ensures var q := PulseEnv(p);
      && PulseView(q) == EnvN(PulseView(p), 1)
      && q == p.(envDiv := q.envDiv, envDec := q.envDec, envStart := q.envStart)
    ensures var m := NoiseEnv(n);
      && NoiseView(m) == EnvN(NoiseView(n), 1)
      && m == n.(envDiv := m.envDiv, envDec := m.envDec, envStart := m.envStart)
  {
    hide EnvClock;
    assert EnvN(EnvStep(PulseView(p)), 0) == EnvStep(PulseView(p));
    assert EnvN(EnvStep(NoiseView(n)), 0) == EnvStep(NoiseView(n));
  }

  // ------------------------------------------------------------------ channel timers

  function TriN(t: Tri, n: nat): Tri
    decreases n
  {
    if n == 0 then t else TickTri(TriN(t, n - 1))
  }

  /** n cycles of the triangle: its timer counts down again and again, and while both counters run each expiry is one
      of the 32 steps of its wave. */
  lemma {:induction false} TriangleRuns(t: Tri, n: nat)
    requires t.timer >= 0 && t.timerPeriod >= 0 && 0 <= t.seq32 < 32
    ensures TriN(t, n) == t.(timer := Shows(n, t.timer, t.timerPeriod),
      seq32 := if t.len > 0 && t.lin > 0 then (t.seq32 + Expiries(n, t.timer, t.timerPeriod)) % 32 else t.seq32)
    decreases n
  {
    hide Shows, Expiries;
    CounterStart(t.timer, t.timerPeriod);
    if n > 0 {
      TriangleRuns(t, n - 1);
      CounterStep(n - 1, t.timer, t.timerPeriod);
      ModAdd(t.seq32 + Expiries(n - 1, t.timer, t.timerPeriod), 1, 32);
    }
  }

  function PulseN(p: Pulse, n: nat): Pulse
    decreases n
  {
    if n == 0 then p else TickPulse(PulseN(p, n - 1))
  }

  /** n clocks of a pulse's timer: each expiry is one of the eight steps of its duty. */
  lemma {:induction false} PulseRuns(p: Pulse, n: nat)
    requires p.timer >= 0 && p.timerPeriod >= 0 && 0 <= p.seq8 < 8
    ensures PulseN(p, n) ==
      p.(timer := Shows(n, p.timer, p.timerPeriod), seq8 := (p.seq8 + Expiries(n, p.timer, p.timerPeriod)) % 8)
    decreases n
  {
    hide Shows, Expiries, TickPulse;
    CounterStart(p.timer, p.timerPeriod);
    if n > 0 {
      PulseRuns(p, n - 1);
      PulseOne(PulseN(p, n - 1));
      CounterStep(n - 1, p.timer, p.timerPeriod);
      ModAdd(p.seq8 + Expiries(n - 1, p.timer, p.timerPeriod), 1, 8);
    }
  }

  lemma PulseOne(p: Pulse)
    ensures TickPulse(p) ==
      if p.timer > 0 then p.(timer := p.timer - 1) else p.(timer := p.timerPeriod, seq8 := (p.seq8 + 1) % 8)
  {
  }

  /** The noise timer counts down; when it expires the 15-bit shift register moves right, and bit 0 exclusive-or bit 1
      (bit 6 in the short mode) comes in at the top. The register never gets stuck at zero. */
  lemma NoiseShifts(n: Noise)
    requires 0 < n.lfsr < 0x8000 && n.timer >= 0
    ensures var m, tap := TickNoise(n), if n.mode then n.lfsr / 64 % 2 else n.lfsr / 2 % 2;
      && 0 < m.lfsr < 0x8000
      && (n.timer > 0 ==> m == n.(timer := n.timer - 1))
      && (n.timer == 0 ==> m == n.(timer := n.period, lfsr := m.lfsr))
      && (n.timer == 0 ==> m.lfsr == n.lfsr / 2 + if n.lfsr % 2 != tap then 0x4000 else 0)
  {
  }

  // ----------------------------------------------------------------------------- DMC

  /** One output bit: the level goes up or down by two with the lowest bit of the shift register, unless silenced or
      at its end of the range 0 to 127; after the eighth bit the buffer is taken, or silence begins. */
  lemma OutputBit(d: Dmc)
    requires 0 <= d.level <= 127 && 1 <= d.bitsRem <= 8 && 0 <= d.period < 131072
    ensures var e := DmcOutput(d);
      && 0 <= e.level <= 127 && e.timer == (if d.period < 2 then 65535 else d.period / 2 - 1)
      && (!d.silence && d.shift % 2 == 1 && d.level < 126 ==> e.level == d.level + 2)
      && (!d.silence && d.shift % 2 == 0 && d.level > 1 ==> e.level == d.level - 2)
      && (d.silence || (d.shift % 2 == 1 && d.level >= 126) || (d.shift % 2 == 0 && d.level <= 1) ==> e.level == d.level)
      && (d.bitsRem > 1 ==> e == d.(timer := e.timer, level := e.level, shift := d.shift / 2, bitsRem := d.bitsRem - 1))
      && (d.bitsRem == 1 && d.bufEmpty ==>
            e == d.(timer := e.timer, level := e.level, shift := d.shift / 2, bitsRem := 8, silence := true))
      && (d.bitsRem == 1 && !d.bufEmpty ==>
            e == d.(timer := e.timer, level := e.level, shift := d.sampleBuf, bitsRem := 8, silence := false, bufEmpty := true))
  {
    hide DmcLevel;
    LevelMoves(d);
  }

  lemma LevelMoves(d: Dmc)
    requires 0 <= d.level <= 127
    ensures 0 <= DmcLevel(d) <= 127
    ensures DmcLevel(d) ==
      if d.silence then d.level
      else if d.shift % 2 == 1 then (if d.level < 126 then d.level + 2 else d.level)
      else (if d.level > 1 then d.level - 2 else d.level)
  {
  }

  function FillN(d: Dmc, bytes: seq<int>): Dmc
    decreases |bytes|
  {
    if bytes == [] then d else DmcFill(FillN(d, bytes[..|bytes| - 1]), bytes[|bytes| - 1])
  }

  /** A sample's bytes come from consecutive addresses, going on at 0x8000 after 0xFFFF; after the last one a looping
      sample starts over, and another raises the interrupt if it may. */
  lemma {:induction false} SampleFetched(d: Dmc, bytes: seq<int>)
    requires 0 < |bytes| <= d.bytesRem && 0x8000 <= d.curAddr <= 0xFFFF && d.bytesRem <= 0x8000
    ensures var e, n := FillN(d, bytes), |bytes|;
      && e == d.(dmaPending := false, sampleBuf := bytes[n - 1], bufEmpty := false, curAddr := e.curAddr,
                 bytesRem := e.bytesRem, irqFlag := e.irqFlag)
      && (n < d.bytesRem || !d.loop ==> e.bytesRem == d.bytesRem - n)
      && (n < d.bytesRem || !d.loop ==> e.curAddr == if d.curAddr + n <= 0xFFFF then d.curAddr + n else d.curAddr + n - 0x8000)
      && (n == d.bytesRem && d.loop ==> e.curAddr == d.startAddr && e.bytesRem == d.startLen)
      && (e.irqFlag <==> d.irqFlag || (n == d.bytesRem && !d.loop && d.irqEn))
    decreases |bytes|
  {
    var n := |bytes|;
    if n > 1 { SampleFetched(d, bytes[..n - 1]); }
    assert n == 1 ==> FillN(d, bytes[..n - 1]) == d;
  }

  /** Without an external DMA the reader takes the byte at its address from memory by itself. */
  lemma ReaderFetches(c: Config, d: Dmc, mem: seq<int>)
    requires !c.dmaExternal && c.memRead == Some(mem) && |mem| == 0x1_0000 && 0 <= d.curAddr <= 0xFFFF
    requires d.bufEmpty && d.bytesRem > 0 && 0 <= d.startDelay <= 1
    ensures !DmcReader(c, d).bufEmpty && DmcReader(c, d).sampleBuf == mem[d.curAddr]
  {
    hide DmcFill;
    FillTakes(d.(startDelay := 0), ReadByte(mem, d.curAddr));
  }

  lemma FillTakes(d: Dmc, byte: int)
    requires d.bytesRem > 0
    ensures !DmcFill(d, byte).bufEmpty && DmcFill(d, byte).sampleBuf == byte
  {
    hide AddrAfter, LeftAfter, IrqAfter;
  }

  // ----------------------------------------------------------------------- registers

  function Flag(b: bool): int { if b then 1 else 0 }

  /** A byte of three fields: three bits, one, four. */
  lemma ThreeFields(a: int, b: bool, d: int)
    requires 0 <= a < 8 && 0 <= d < 16
    ensures var v := 32 * a + 16 * Flag(b) + d;
      && 0 <= v < 256 && v % 16 == d && v % 8 == d % 8 && v / 16 % 8 == a % 4 * 2 + Flag(b) && v / 64 == a / 2
      && (Bit(v, 3) <==> d >= 8) && (Bit(v, 4) <==> b) && (Bit(v, 5) <==> a % 2 == 1)
      && (Bit(v, 6) <==> a / 2 % 2 == 1) && (Bit(v, 7) <==> a >= 4)
  {
    hide Bit;
    LowBits(a, b, d);
    FifthBit(a, b, d);
    HighBits(a, b, d);
  }

  lemma FifthBit(a: int, b: bool, d: int)
    requires 0 <= a < 8 && 0 <= d < 16
    ensures Bit(32 * a + 16 * Flag(b) + d, 5) <==> a % 2 == 1
  {
    DivUnique(32 * a + 16 * Flag(b) + d, 32, a, 16 * Flag(b) + d);
  }

  lemma LowBits(a: int, b: bool, d: int)
    requires 0 <= a < 8 && 0 <= d < 16
    ensures var v := 32 * a + 16 * Flag(b) + d;
      (Bit(v, 3) <==> d >= 8) && (Bit(v, 4) <==> b)
  {
    var v := 32 * a + 16 * Flag(b) + d;
    DivUnique(v, 16, 2 * a + Flag(b), d);
    DivUnique(v, 8, 4 * a + 2 * Flag(b) + d / 8, d % 8);
  }

  lemma HighBits(a: int, b: bool, d: int)
    requires 0 <= a < 8 && 0 <= d < 16
    ensures var v := 32 * a + 16 * Flag(b) + d; (Bit(v, 6) <==> a / 2 % 2 == 1) && (Bit(v, 7) <==> a >= 4)
  {
  }

  /** $4000 and $4004: duty, length halt, constant volume, volume. */
  lemma PulseControl(c: Config, p: Pulse, duty: int, halt: bool, constant: bool, vol: int, en: bool)
    requires 0 <= duty < 4 && 0 <= vol < 16
    ensures WritePulse(c, p, 0, 64 * duty + 32 * Flag(halt) + 16 * Flag(constant) + vol, en) ==
      p.(duty := duty, halt := halt, constVol := constant, vol := vol)
  {
    hide Bit;
    ThreeFields(2 * duty + Flag(halt), constant, vol);
  }

  /** $4001 and $4005: sweep on, divider period, negate, shift; the divider is to be set again. */
  lemma PulseSweepControl(c: Config, p: Pulse, on: bool, period: int, negate: bool, shift: int, en: bool)
    requires 0 <= period < 8 && 0 <= shift < 8 && c.sweepEnabled
    ensures WritePulse(c, p, 1, 128 * Flag(on) + 16 * period + 8 * Flag(negate) + shift, en) ==
      p.(sweepEn := on, sweepPeriod := period, sweepNeg := negate, sweepShift := shift, sweepReload := true)
  {
    hide Bit, WritePulse;
    SweepByte(on, period, negate, shift);
    SweepFields(c, p, 128 * Flag(on) + 16 * period + 8 * Flag(negate) + shift, en);
  }

  lemma SweepByte(on: bool, period: int, negate: bool, shift: int)
    requires 0 <= period < 8 && 0 <= shift < 8
    ensures var v := 128 * Flag(on) + 16 * period + 8 * Flag(negate) + shift;
      (Bit(v, 7) <==> on) && v / 16 % 8 == period && (Bit(v, 3) <==> negate) && v % 8 == shift
  {
    hide Bit;
    var a, b, d := 4 * Flag(on) + period / 2, period % 2 == 1, 8 * Flag(negate) + shift;
    ThreeFields(a, b, d);
    assert 32 * a + 16 * Flag(b) + d == 128 * Flag(on) + 16 * period + 8 * Flag(negate) + shift;
  }

  lemma SweepFields(c: Config, p: Pulse, v: int, en: bool)
    requires c.sweepEnabled
    ensures WritePulse(c, p, 1, v, en) == p.(sweepEn := Bit(v, 7), sweepPeriod := v / 16 % 8, sweepNeg := Bit(v, 3),
                                             sweepShift := v % 8, sweepReload := true)
  {
    hide Bit;
  }

  /** The lengths of notes, by the upper five bits of the last register of a channel. */
  function NoteLength(i: int): int {
    if i == 1 then 254
    else if i % 2 == 1 then i - 1
    else match i
      case 0 => 10 case 2 => 20 case 4 => 40 case 6 => 80 case 8 => 160 case 10 => 60 case 12 => 14 case 14 => 26
      case 16 => 12 case 18 => 24 case 20 => 48 case 22 => 96 case 24 => 192 case 26 => 72 case 28 => 16 case _ => 32
  }

  lemma Lengths(i: int)
    requires 0 <= i < 32
    ensures LEN_TABLE[i] == NoteLength(i)
  {
  }

  /** Pitch and length: the low byte sets the low eight bits and keeps the high three, the high register sets those
      three, the length if the channel is on, and starts the note over. */
  lemma PulsePitch(c: Config, p: Pulse, low: int, high: int, length: int, en: bool)
    requires 0 <= p.timerPeriod <= 0x7FF && 0 <= low < 256 && 0 <= high < 8 && 0 <= length < 32
    ensures WritePulse(c, p, 2, low, en) == p.(timerPeriod := p.timerPeriod / 256 * 256 + low)
    ensures WritePulse(c, p, 3, 8 * length + high, en) ==
      p.(timerPeriod := 256 * high + p.timerPeriod % 256, len := if en then NoteLength(length) else p.len,
         envStart := true, seq8 := 0)
  {
    hide NoteLength;
    Pitch(p.timerPeriod, low, high, length);
    Lengths(length);
  }

  lemma Pitch(p: int, low: int, high: int, length: int)
    requires 0 <= p <= 0x7FF && 0 <= low < 256 && 0 <= high < 8 && 0 <= length < 32
    ensures PeriodLow(p, low) == p / 256 * 256 + low
    ensures PeriodHigh(p, 8 * length + high) == 256 * high + p % 256 && (8 * length + high) / 8 % 32 == length
  {
    DivUnique(8 * length + high, 8, length, high);
  }

  /** The triangle: $4008 halt and linear counter, $400A and $400B as a pulse's, the linear counter to be set again. */
  lemma TriangleRegisters(t: Tri, halt: bool, linear: int, low: int, high: int, length: int, en: bool)
    requires 0 <= t.timerPeriod <= 0x7FF && 0 <= low < 256 && 0 <= high < 8 && 0 <= length < 32 && 0 <= linear < 128
    ensures WriteTri(t, 0x4008, 128 * Flag(halt) + linear, en) == t.(halt := halt, linLoad := linear)
    ensures WriteTri(t, 0x400A, low, en) == t.(timerPeriod := t.timerPeriod / 256 * 256 + low)
    ensures WriteTri(t, 0x400B, 8 * length + high, en) ==
      t.(timerPeriod := 256 * high + t.timerPeriod % 256, len := if en then NoteLength(length) else t.len, linReload := true)
    ensures WriteTri(t, 0x4009, low, en) == t
  {
    hide NoteLength;
    Pitch(t.timerPeriod, low, high, length);
    Lengths(length);
    DivUnique(128 * Flag(halt) + linear, 128, Flag(halt), linear);
  }

  /** The noise periods, in clocks of its timer. */
  function NoisePeriod(i: int): int {
    match i
    case 0 => 4 case 1 => 8 case 2 => 16 case 3 => 32 case 4 => 64 case 5 => 96 case 6 => 128 case 7 => 160
    case 8 => 202 case 9 => 254 case 10 => 380 case 11 => 508 case 12 => 762 case 13 => 1016 case 14 => 2034 case _ => 4068
  }

  lemma NoisePeriods(i: int)
    requires 0 <= i < 16
    ensures NOISE_PERIOD[i] == NoisePeriod(i)
  {
  }

  /** The noise channel: $400C as a pulse's control without duty, $400E mode and period, $400F length. */
  lemma NoiseControl(n: Noise, halt: bool, constant: bool, vol: int, rest: int, en: bool)
    requires 0 <= vol < 16 && 0 <= rest < 4
    ensures WriteNoise(n, 0x400C, 64 * rest + 32 * Flag(halt) + 16 * Flag(constant) + vol, en) ==
      n.(halt := halt, constVol := constant, vol := vol)
    ensures WriteNoise(n, 0x400D, vol, en) == n
  {
    hide Bit;
    ThreeFields(2 * rest + Flag(halt), constant, vol);
  }

  lemma NoiseRate(n: Noise, mode: bool, rate: int, rest: int, en: bool)
    requires 0 <= rate < 16 && 0 <= rest < 8
    ensures WriteNoise(n, 0x400E, 128 * Flag(mode) + 16 * rest + rate, en) == n.(mode := mode, period := NoisePeriod(rate))
  {
    hide NoisePeriod, Bit;
    ThreeFields(4 * Flag(mode) + rest / 2, rest % 2 == 1, rate);
    NoisePeriods(rate);
  }

  lemma NoiseStart(n: Noise, rest: int, length: int, en: bool)
    requires 0 <= rest < 8 && 0 <= length < 32
    ensures WriteNoise(n, 0x400F, 8 * length + rest, en) ==
      n.(len := if en then NoteLength(length) else n.len, envStart := true)
  {
    hide NoteLength, WriteNoise;
    Lengths(length);
    DivUnique(8 * length + rest, 8, length, rest);
    NoiseLast(n, 8 * length + rest, length, en);
  }

  lemma NoiseLast(n: Noise, v: int, length: int, en: bool)
    requires 0 <= length < 32 && v / 8 == length
    ensures WriteNoise(n, 0x400F, v, en) == n.(len := if en then LEN_TABLE[length] else n.len, envStart := true)
  {
    hide Bit;
  }

  /** The DMC's periods, in CPU cycles. */
  lemma DmcRates(i: int)
    requires 0 <= i < 16
    ensures DmcRate(i) == [428, 380, 340, 320, 286, 254, 226, 214, 190, 160, 142, 128, 106, 84, 72, 54][i]
  {
  }

  /** The DMC: $4010 interrupt, loop and rate, $4011 level, $4012 and $4013 where the sample is and how long. */
  lemma DmcControl(c: Config, d: Dmc, irq: bool, loop: bool, rest: int, rate: int)
    requires c.dmcEnabled && 0 <= rest < 4 && 0 <= rate < 16
    ensures WriteDmc(c, d, 0x4010, 128 * Flag(irq) + 64 * Flag(loop) + 16 * rest + rate) ==
      d.(irqEn := irq, loop := loop, rateIdx := rate, period := DmcRate(rate), irqFlag := d.irqFlag && irq)
  {
    hide Bit, DmcRate;
    ThreeFields(4 * Flag(irq) + 2 * Flag(loop) + rest / 2, rest % 2 == 1, rate);
  }

  lemma DmcSample(c: Config, d: Dmc, v: int)
    requires c.dmcEnabled && 0 <= v < 256
    ensures WriteDmc(c, d, 0x4011, v) == d.(level := if v < 128 then v else v - 128)
    ensures WriteDmc(c, d, 0x4012, v) == d.(startAddr := 0xC000 + 64 * v)
    ensures WriteDmc(c, d, 0x4013, v) == d.(startLen := 16 * v + 1)
  {
    hide Bit, DmcRate;
  }

  /** Without the channel only its interrupt can be cleared. */
  lemma DmcAbsent(c: Config, d: Dmc, addr: int, v: int)
    requires !c.dmcEnabled
    ensures WriteDmc(c, d, addr, v) == if addr == 0x4010 then d.(irqFlag := false) else d
  {
    hide Bit, DmcRate;
  }

  /** $4015: the five lowest bits switch the five channels. */
  lemma StatusRegister(c: Config, s: State, p0: bool, p1: bool, tri: bool, noise: bool, dmc: bool, rest: int)
    requires |s.chEn| == 5 && 0 <= rest < 8
    ensures WriteStatus(c, s, 32 * rest + 16 * Flag(dmc) + 8 * Flag(noise) + 4 * Flag(tri) + 2 * Flag(p1) + Flag(p0)).chEn ==
      [p0, p1, tri, noise, dmc && c.dmcEnabled]
  {
    hide DmcStatus, Bit;
    ThreeFields(rest, dmc, 8 * Flag(noise) + 4 * Flag(tri) + 2 * Flag(p1) + Flag(p0));
    LowNibble(2 * rest + Flag(dmc), noise, tri, p1, p0);
  }

  lemma LowNibble(high: int, b3: bool, b2: bool, b1: bool, b0: bool)
    requires 0 <= high < 16
    ensures var v := 16 * high + 8 * Flag(b3) + 4 * Flag(b2) + 2 * Flag(b1) + Flag(b0);
      (Bit(v, 0) <==> b0) && (Bit(v, 1) <==> b1) && (Bit(v, 2) <==> b2)
  {
    var v := 16 * high + 8 * Flag(b3) + 4 * Flag(b2) + 2 * Flag(b1) + Flag(b0);
    DivUnique(v, 4, 4 * high + 2 * Flag(b3) + Flag(b2), 2 * Flag(b1) + Flag(b0));
    DivUnique(v, 2, 8 * high + 4 * Flag(b3) + 2 * Flag(b2) + Flag(b1), Flag(b0));
  }

  /** $4017: the top bit is the mode the sequence takes when the write lands, the next one inhibits the interrupt. */
  lemma FrameRegister(c: Config, s: State, mode5: bool, inhibit: bool, rest: int, cycle: nat)
    requires 0 <= rest < 64
    ensures var f := WriteFrame(c, s, 128 * Flag(mode5) + 64 * Flag(inhibit) + rest).fc;
      && f.irqInhibit == (inhibit || !c.frameIrqEnabled) && (inhibit ==> !f.irq && !f.clearPending)
      && f.writeDelay == (if s.cycle % 2 == 0 then 4 else 3)
      && TickFrame(c, f.(writeDelay := 1), cycle).mode5 == mode5 && TickFrame(c, f.(writeDelay := 1), cycle).div == 1
  {
    hide Bit, TickFrame;
    FrameByte(mode5, inhibit, rest);
    Lands(c, WriteFrame(c, s, 128 * Flag(mode5) + 64 * Flag(inhibit) + rest).fc.(writeDelay := 1), cycle);
  }

  lemma FrameByte(mode5: bool, inhibit: bool, rest: int)
    requires 0 <= rest < 64
    ensures var v := 128 * Flag(mode5) + 64 * Flag(inhibit) + rest; (Bit(v, 7) <==> mode5) && (Bit(v, 6) <==> inhibit)
  {
    var v := 128 * Flag(mode5) + 64 * Flag(inhibit) + rest;
    DivUnique(v, 128, Flag(mode5), 64 * Flag(inhibit) + rest);
    DivUnique(v, 64, 2 * Flag(mode5) + Flag(inhibit), rest);
  }

  lemma Lands(c: Config, f: Frame, cycle: nat)
    requires f.writeDelay == 1
    ensures TickFrame(c, f, cycle).mode5 == Bit(f.newValue, 7) && TickFrame(c, f, cycle).div == 1
  {
    hide Bit;
  }
}
