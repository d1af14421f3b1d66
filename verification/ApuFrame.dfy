/** The 2A03's frame counter over whole runs: its phase against the CPU's cycles, and how often
    a full sequence clocks the envelopes and the length counters. */
module ApuFrame {
  import opened Runs
  import opened Apu
  import opened ApuLazy

  // --------------------------------------------------------------------- phase

  /** The sequence position and the cycle number have opposite parity. */
  predicate InPhase(s: State) { (s.fc.div + s.cycle) % 2 == 1 }

  /** A landing $4017 write puts the sequence in phase, wherever it was. */
  lemma LandingPutsInPhase(c: Config, s: State)
    requires Inv(c, s) && WriteLands(s.fc)
    ensures InPhase(Tick(c, s)) && Tick(c, s).fc.div == 1
  {
    hide DmcInv, PulseInv, Tick, Bit;
    TickParts(c, s);
  }

  lemma TickKeepsPhase(c: Config, s: State)
    requires Inv(c, s) && InPhase(s)
    ensures InPhase(Tick(c, s))
  {
    hide DmcInv, PulseInv, Tick, Bit;
    TickParts(c, s);
  }

  lemma StepKeepsPhase(c: Config, s: State, op: Op)
    requires Inv(c, s) && InPhase(s)
    ensures InPhase(Apply(c, s, op))
  {
    hide Bit, WritePulse, WriteTri, WriteNoise, WriteDmc, DmcStatus, Tick, DmcFill, DmcInv, FrameInv, PulseInv;
    if op.Cycle? { TickKeepsPhase(c, s); }
  }

  /** In phase once, in phase for ever: across wraps, mode changes and further $4017 writes. */
  lemma {:induction false} PhaseForever(c: Config, s: State, ops: seq<Op>)
    requires Inv(c, s) && InPhase(s) && RunOps(c, s, ops).Some?
    ensures InPhase(RunOps(c, s, ops).value)
    decreases |ops|
  {
    hide Inv, Apply, Allowed, InPhase;
    if ops != [] {
      InvApply(c, s, ops[0]);
      StepKeepsPhase(c, s, ops[0]);
      PhaseForever(c, Apply(c, s, ops[0]), ops[1..]);
    }
  }

  // ------------------------------------------------------------------ counting

  function NextDiv(mode5: bool, div: int): int {
    if div + 1 == SequenceLength(mode5) then 0 else div + 1
  }

  /** How many of the next n cycles clock the envelopes, and how many the lengths. */
  function Quarters(mode5: bool, div: int, n: nat): nat
    decreases n
  {
    if n == 0 then 0
    else (if QuarterAt(mode5, div + 1) then 1 else 0) + Quarters(mode5, NextDiv(mode5, div), n - 1)
  }

  function Halves(mode5: bool, div: int, n: nat): nat
    decreases n
  {
    if n == 0 then 0
    else (if HalfAt(mode5, div + 1) then 1 else 0) + Halves(mode5, NextDiv(mode5, div), n - 1)
  }

  /** Clocking positions up to t. */
  function QuartersUpTo(mode5: bool, t: int): int {
    (if t >= 7457 then 1 else 0) + (if t >= 14913 then 1 else 0) + (if t >= 22371 then 1 else 0)
    + (if t >= (if mode5 then 37281 else 29829) then 1 else 0)
  }

  function HalvesUpTo(mode5: bool, t: int): int {
    (if t >= 14913 then 1 else 0) + (if t >= (if mode5 then 37281 else 29829) then 1 else 0)
  }

  lemma {:induction false} CountsByPosition(mode5: bool, div: int, n: nat)
    requires 0 <= div < SequenceLength(mode5) && n <= SequenceLength(mode5)
    ensures Quarters(mode5, div, n) ==
      if div + n < SequenceLength(mode5) then QuartersUpTo(mode5, div + n) - QuartersUpTo(mode5, div)
      else 4 - QuartersUpTo(mode5, div) + QuartersUpTo(mode5, div + n - SequenceLength(mode5))
    ensures Halves(mode5, div, n) ==
      if div + n < SequenceLength(mode5) then HalvesUpTo(mode5, div + n) - HalvesUpTo(mode5, div)
      else 2 - HalvesUpTo(mode5, div) + HalvesUpTo(mode5, div + n - SequenceLength(mode5))
    decreases n
  {
    if n > 0 { CountsByPosition(mode5, NextDiv(mode5, div), n - 1); }
  }

  // ---------------------------------------------- what the counting does to a state

  datatype Env = Env(div: int, dec: int, start: bool, halt: bool, vol: int)
  datatype Len = Len(halt: bool, count: int)

  /** The units the frame counter clocks: three envelopes and four length counters. */
  datatype View = View(e0: Env, e1: Env, en: Env, l0: Len, l1: Len, lt: Len, ln: Len)

  function PulseView(p: Pulse): Env { Env(p.envDiv, p.envDec, p.envStart, p.halt, p.vol) }
  function NoiseView(n: Noise): Env { Env(n.envDiv, n.envDec, n.envStart, n.halt, n.vol) }

  function ViewOf(s: State): View {
    View(PulseView(s.p0), PulseView(s.p1), NoiseView(s.noise), Len(s.p0.halt, s.p0.len), Len(s.p1.halt, s.p1.len),
         Len(s.tri.halt, s.tri.len), Len(s.noise.halt, s.noise.len))
  }

  function EnvStep(e: Env): Env {
    var (d, l, s) := EnvClock(e.div, e.dec, e.start, e.halt, e.vol);
    Env(d, l, s, e.halt, e.vol)
  }

  function EnvN(e: Env, n: nat): Env
    decreases n
  {
    if n == 0 then e else EnvN(EnvStep(e), n - 1)
  }

  /** n clocks of a length counter: down to zero and no further, unless halted. */
  function LenN(l: Len, n: nat): Len {
    if l.halt || l.count <= 0 then l else Len(false, if l.count > n then l.count - n else 0)
  }

  function ViewAfter(v: View, quarters: nat, halves: nat): View {
    View(EnvN(v.e0, quarters), EnvN(v.e1, quarters), EnvN(v.en, quarters),
         LenN(v.l0, halves), LenN(v.l1, halves), LenN(v.lt, halves), LenN(v.ln, halves))
  }

  lemma EnvelopesView(s: State)
    ensures ViewOf(ClockEnvelopes(s)) == ViewAfter(ViewOf(s), 1, 0)
  {
    hide EnvClock;
    assert forall e :: EnvN(e, 1) == EnvStep(e) by {
      forall e ensures EnvN(e, 1) == EnvStep(e) { assert EnvN(EnvStep(e), 0) == EnvStep(e); }
    }
  }

  lemma LengthsView(c: Config, s: State)
    ensures ViewOf(ClockLengthsSweep(c, s)) == ViewAfter(ViewOf(s), 0, 1)
  {
    hide PulseSweep;
    var t := ClockLengths(s);
    SweepKeepsView(t.p0, c.sweepEnabled, 0);
    SweepKeepsView(t.p1, c.sweepEnabled, 1);
  }

  lemma SweepKeepsView(p: Pulse, enabled: bool, ch: int)
    ensures var q := PulseSweep(p, enabled, ch); PulseView(q) == PulseView(p) && q.len == p.len
  {
  }

  lemma {:induction false} ViewAfterAdds(v: View, q: nat, h: nat, q': nat, h': nat)
    ensures ViewAfter(ViewAfter(v, q, h), q', h') == ViewAfter(v, q + q', h + h')
  {
    hide EnvN;
    EnvNAdds(v.e0, q, q');
    EnvNAdds(v.e1, q, q');
    EnvNAdds(v.en, q, q');
  }

  lemma {:induction false} EnvNAdds(e: Env, m: nat, n: nat)
    ensures EnvN(EnvN(e, m), n) == EnvN(e, m + n)
    decreases m
  {
    hide EnvStep;
    if m > 0 { EnvNAdds(EnvStep(e), m - 1, n); }
  }

  lemma FrameView(c: Config, s: State, half: bool)
    ensures ViewOf(ClockFrame(c, s, half)) == ViewAfter(ViewOf(s), 1, if half then 1 else 0)
  {
    hide ClockEnvelopes, ClockLengthsSweep, ViewOf, ViewAfter;
    EnvelopesView(s);
    LengthsView(c, ClockEnvelopes(s));
    ViewAfterAdds(ViewOf(s), 1, 0, 0, 1);
  }

  lemma ClocksView(c: Config, s: State)
    requires !WriteLands(s.fc)
    ensures ViewOf(FrameClocks(c, s)) ==
      ViewAfter(ViewOf(s), if QuarterAt(s.fc.mode5, s.fc.div + 1) then 1 else 0, if HalfAt(s.fc.mode5, s.fc.div + 1) then 1 else 0)
  {
    hide ClockFrame, ViewOf, ViewAfter;
    FrameView(c, s, HalfAt(s.fc.mode5, s.fc.div + 1));
    NoClocks(ViewOf(s));
  }

  lemma NoClocks(v: View)
    ensures ViewAfter(v, 0, 0) == v
  {
  }

  lemma TimersKeepView(p: Pulse, n: Noise, t: Tri)
    ensures PulseView(TickPulse(p)) == PulseView(p) && TickPulse(p).len == p.len
    ensures NoiseView(TickNoise(n)) == NoiseView(n) && TickNoise(n).len == n.len
    ensures TickTri(t).halt == t.halt && TickTri(t).len == t.len
  {
    hide Bit;
  }

  lemma TickView(c: Config, s: State)
    requires !WriteLands(s.fc)
    ensures ViewOf(Tick(c, s)) ==
      ViewAfter(ViewOf(s), if QuarterAt(s.fc.mode5, s.fc.div + 1) then 1 else 0, if HalfAt(s.fc.mode5, s.fc.div + 1) then 1 else 0)
  {
    hide TickTri, TickPulse, TickNoise, TickDmc, TickFrame, FrameClocks, ViewAfter, QuarterAt, HalfAt;
    TimersKeepView(s.p0, s.noise, s.tri);
    TimersKeepView(s.p1, s.noise, s.tri);
    var a := s.(cycle := s.cycle + 1, apuClk := !s.apuClk, tri := TickTri(s.tri));
    var b := if a.apuClk then a.(p0 := TickPulse(a.p0), p1 := TickPulse(a.p1), noise := TickNoise(a.noise)) else a;
    ClocksView(c, b.(dmc := TickDmc(c, b.dmc, s.cycle + 1)));
  }

  /** Over n cycles without a $4017 write under way, the counts say what happened. */
  lemma {:induction false} RunView(c: Config, s: State, n: nat)
    requires Inv(c, s) && s.fc.writeDelay == 0
    ensures ViewOf(TickN(c, s, n)) == ViewAfter(ViewOf(s), Quarters(s.fc.mode5, s.fc.div, n), Halves(s.fc.mode5, s.fc.div, n))
    decreases n
  {
    hide Inv, Tick, ViewOf, ViewAfter, QuarterAt, HalfAt, SequenceLength;
    NoClocks(ViewOf(s));
    if n > 0 {
      InvTick(c, s);
      TickParts(c, s);
      FrameStep(c, s.fc, s.cycle + 1);
      TickView(c, s);
      RunView(c, Tick(c, s), n - 1);
      var q, h := if QuarterAt(s.fc.mode5, s.fc.div + 1) then 1 else 0, if HalfAt(s.fc.mode5, s.fc.div + 1) then 1 else 0;
      ViewAfterAdds(ViewOf(s), q, h, Quarters(s.fc.mode5, NextDiv(s.fc.mode5, s.fc.div), n - 1),
                    Halves(s.fc.mode5, NextDiv(s.fc.mode5, s.fc.div), n - 1));
    }
  }

  lemma FrameStep(c: Config, f: Frame, cycle: nat)
    requires f.writeDelay == 0
    ensures var g := TickFrame(c, f, cycle); g.writeDelay == 0 && g.mode5 == f.mode5 && g.div == NextDiv(f.mode5, f.div)
  {
  }

  /** Any full sequence, from any phase: four envelope clocks and two length clocks. */
  lemma SequenceClocks(c: Config, s: State)
    requires Inv(c, s) && s.fc.writeDelay == 0
    ensures ViewOf(TickN(c, s, SequenceLength(s.fc.mode5))) == ViewAfter(ViewOf(s), 4, 2)
  {
    hide DmcInv, PulseInv, Tick, TickN, ViewOf, ViewAfter, Quarters, Halves;
    RunView(c, s, SequenceLength(s.fc.mode5));
    CountsByPosition(s.fc.mode5, s.fc.div, SequenceLength(s.fc.mode5));
  }
}
