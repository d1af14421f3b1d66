/** Runs a CPU can do from reset: one whose byte comes too late, and one that never sets the DMC's rate. */
module ApuLateRun {
  import opened Runs
  import opened Apu
  import opened ApuLazy
  import opened ApuMachine
  import opened ApuLate

  // ------------------------------------------------------------------- the channel

  /** The channel is stopped; its output unit goes on counting. */
  predicate Idle(c: Config, d: Dmc) {
    && c.dmcEnabled && c.dmaExternal && d.bufEmpty && d.bytesRem == 0 && d.startDelay == 0 && !d.dmaPending
    && 1 <= d.bitsRem <= 8 && d.timer >= 0 && RatePeriod(d.period) && d.period > 0
  }

  /** Counting towards the first fetch, or asking for it. */
  predicate Starting(c: Config, d: Dmc) {
    && c.dmcEnabled && c.dmaExternal && d.bufEmpty && d.bytesRem > 0 && d.startDelay > 0 && !d.dmaPending
    && 1 <= d.bitsRem <= 8 && d.timer >= 0 && RatePeriod(d.period) && d.period > 0
  }

  lemma {:induction false} IdleCycles(c: Config, d: Dmc, cycle: nat, n: nat)
    requires Idle(c, d) && n < ExpiryTicks(d, cycle)
    ensures var e := DmcN(c, d, cycle, n);
      Idle(c, e) && ExpiryTicks(e, cycle + n) == ExpiryTicks(d, cycle) - n && e.startLen == d.startLen && e.loop == d.loop
    decreases n
  {
    hide ExpiryTicks, DmcTimer;
    if n > 0 {
      var e := DmcTimer(d, cycle + 1);
      ExpiryCountsDown(d, cycle);
      TimerEffect(d, cycle + 1);
      assert TickDmc(c, d, cycle + 1) == e;
      IdleCycles(c, e, cycle + 1, n - 1);
    }
  }

  lemma StartingCycle(c: Config, d: Dmc, cycle: nat)
    requires Starting(c, d) && ExpiryTicks(d, cycle) > 1
    ensures var e := TickDmc(c, d, cycle + 1);
      && e.startDelay == d.startDelay - 1 && ExpiryTicks(e, cycle + 1) == ExpiryTicks(d, cycle) - 1
      && (d.startDelay > 1 ==> Starting(c, e)) && (d.startDelay == 1 ==> e.dmaPending)
      && e.bytesRem == d.bytesRem && e.startLen == d.startLen && e.loop == d.loop
  {
    hide DmcTimer, PeriodsLeft;
    ExpiryCountsDown(d, cycle);
    TimerEffect(d, cycle + 1);
  }

  lemma {:induction false} RunCycles(c: Config, s: State, n: nat, rest: seq<Op>)
    requires Inv(c, s)
    ensures Inv(c, TickN(c, s, n)) && RunOps(c, s, seq(n, _ => Cycle) + rest) == RunOps(c, TickN(c, s, n), rest)
    decreases n
  {
    hide Inv, Tick;
    var ops := seq(n, _ => Cycle) + rest;
    if n == 0 {
      assert ops == rest;
    } else {
      assert ops[0] == Cycle && ops[1..] == seq(n - 1, _ => Cycle) + rest;
      InvTick(c, s);
      RunCycles(c, Tick(c, s), n - 1, rest);
    }
  }

  lemma StartedIs(c: Config, s: State)
    requires Inv(c, s) && Idle(c, s.dmc) && s.cycle % 2 == 0 && s.dmc.startLen > 0
    ensures |s.chEn| == 5
    ensures var t := Write(c, s, 0x4015, 0x10);
      && Starting(c, t.dmc) && t.dmc.startDelay == 3 && t.cycle == s.cycle && t.fc == s.fc
      && ExpiryTicks(t.dmc, t.cycle) == ExpiryTicks(s.dmc, s.cycle)
      && t.dmc.bytesRem == t.dmc.startLen == s.dmc.startLen && t.dmc.loop == s.dmc.loop
  {
    hide DmcInv, FrameInv, PulseInv, PeriodsLeft;
  }

  lemma ThreeCycles(c: Config, d: Dmc, cycle: nat)
    requires Starting(c, d) && d.startDelay == 3 && ExpiryTicks(d, cycle) > 3
    ensures var e := DmcN(c, d, cycle, 3);
      && e.dmaPending && ExpiryTicks(e, cycle + 3) == ExpiryTicks(d, cycle) - 3 && e.period > 0
      && e.bytesRem == d.bytesRem && e.startLen == d.startLen && e.loop == d.loop
    ensures forall k: nat :: k < 3 ==> Starting(c, DmcN(c, d, cycle, k))
  {
    hide ExpiryTicks, TickDmc;
    var d1 := TickDmc(c, d, cycle + 1);
    var d2 := TickDmc(c, d1, cycle + 2);
    StartingCycle(c, d, cycle);
    StartingCycle(c, d1, cycle + 1);
    StartingCycle(c, d2, cycle + 2);
    var d3 := TickDmc(c, d2, cycle + 3);
    DmcThree(c, d, cycle);
    assert DmcN(c, d, cycle, 0) == d;
    KeepsRate(c, d2, cycle + 3);
  }

  lemma KeepsRate(c: Config, d: Dmc, cycle: nat)
    requires c.dmaExternal
    ensures TickDmc(c, d, cycle).period == d.period
  {
    hide DmcTimer;
    SameRate(d, cycle);
  }

  /** The frame counter as it is before anyone wrote to it. */
  predicate PlainFrame(f: Frame) { !f.mode5 && f.writeDelay == 0 && !f.clearPending }

  lemma {:induction false} FrameCounts(c: Config, s: State, n: nat)
    requires PlainFrame(s.fc) && s.fc.div + n < 29828
    ensures PlainFrame(TickN(c, s, n).fc) && TickN(c, s, n).fc.div == s.fc.div + n
    decreases n
  {
    hide Tick;
    if n > 0 {
      TickParts(c, s);
      OneCount(c, s.fc, s.cycle + 1);
      FrameCounts(c, Tick(c, s), n - 1);
    }
  }

  lemma OneCount(c: Config, f: Frame, cycle: nat)
    requires PlainFrame(f) && f.div + 1 < 29828
    ensures PlainFrame(TickFrame(c, f, cycle)) && TickFrame(c, f, cycle).div == f.div + 1
  {
  }

  /** A CPU's run from reset: time, the rate, an endless one-byte sample, more time, no frame interrupts. */
  function WarmUp(): seq<Op> {
    Time(100) + ([WriteReg(0x4010, 0x4F)] + (Time(6) + ([WriteReg(0x4013, 0)]
    + (Time(130988) + ([WriteReg(0x4017, 0x40)] + Time(300))))))
  }

  /** When it is over. */
  const WARM := 131394

  /** Start, three cycles to the request, and two more. */
  const START: seq<Op> := [WriteReg(0x4015, 0x10), Cycle, Cycle, Cycle, Cycle, Cycle]

  /** The delivery, and one cycle. */
  function Delivery(b: int): seq<Op> { [Deliver(b), Cycle] }

  /** The whole run. */
  function LateRun(b: int): seq<Op> { WarmUp() + (START + Delivery(b)) }

  function Time(n: nat): seq<Op> { seq(n, _ => Cycle) }

  lemma TimePasses(c: Config, s: State, n: nat, rest: seq<Op>)
    requires Inv(c, s)
    ensures Inv(c, TickN(c, s, n)) && RunOps(c, s, Time(n) + rest) == RunOps(c, TickN(c, s, n), rest)
  {
    hide Inv, Tick, RunOps;
    RunCycles(c, s, n, rest);
  }

  /** Time passes, then a write. */
  lemma Stretch(c: Config, s: State, n: nat, addr: int, v: int, rest: seq<Op>)
    requires Inv(c, s) && 0 <= v < 256
    ensures var t := TickN(c, s, n);
      && Inv(c, t) && |t.chEn| == 5 && Inv(c, Write(c, t, addr, v))
      && RunOps(c, s, Time(n) + ([WriteReg(addr, v)] + rest)) == RunOps(c, Write(c, t, addr, v), rest)
  {
    hide Inv, Tick, Write, RunOps;
    TimePasses(c, s, n, [WriteReg(addr, v)] + rest);
    var t := TickN(c, s, n);
    InvSize(c, t);
    TraceStep(c, t, WriteReg(addr, v), rest);
  }

  /** The channel as reset leaves it, after its timer first ran out: no period yet, 65535 to count down. */
  predicate Unset(c: Config, d: Dmc) {
    && c.dmcEnabled && c.dmaExternal && d.bufEmpty && d.bytesRem == 0 && d.startDelay == 0 && !d.dmaPending
    && d.bitsRem == 7 && d.timer >= 0 && d.period == 0
  }

  /** Cycles to the next time it runs out. */
  function ToGo(d: Dmc, cycle: nat): int { 2 * (d.timer + 1) - cycle % 2 }

  lemma {:induction false} UnsetCycles(c: Config, d: Dmc, cycle: nat, n: nat)
    requires Unset(c, d) && n < ToGo(d, cycle)
    ensures var e := DmcN(c, d, cycle, n);
      Unset(c, e) && ToGo(e, cycle + n) == ToGo(d, cycle) - n && e.startLen == d.startLen
    decreases n
  {
    hide DmcTimer;
    if n > 0 {
      var e := DmcTimer(d, cycle + 1);
      UnsetRateTimer(d, cycle);
      TimerEffect(d, cycle + 1);
      assert TickDmc(c, d, cycle + 1) == e;
      UnsetCycles(c, e, cycle + 1, n - 1);
    }
  }

  lemma FirstOutput(c: Config)
    requires c.dmcEnabled && c.dmaExternal
    ensures var d := TickDmc(c, TickDmc(c, InitState().dmc, 1), 2); Unset(c, d) && ToGo(d, 2) == 131072
  {
  }

  /** The state after n cycles from reset. */
  lemma UnsetFor(c: Config, n: nat)
    requires c.dmcEnabled && c.dmaExternal && 2 <= n <= 131072
    ensures var s := TickN(c, Reset(c), n);
      s.cycle == n && Unset(c, s.dmc) && ToGo(s.dmc, n) == 131074 - n && !s.fc.clearPending
  {
    hide Tick, TickDmc, InitState, Unset, ToGo;
    var s := Reset(c);
    ResetIs(c);
    TickNIgnoresDmc(c, s, s.dmc, n);
    FirstOutput(c);
    var d1 := TickDmc(c, s.dmc, 1);
    assert DmcN(c, s.dmc, 0, n) == DmcN(c, d1, 1, n - 1) == DmcN(c, TickDmc(c, d1, 2), 2, n - 2);
    UnsetCycles(c, TickDmc(c, d1, 2), 2, n - 2);
    NeverRead(c, s, n);
  }

  lemma ResetIs(c: Config)
    ensures Reset(c) == InitState() && Reset(c).cycle == 0 && !Reset(c).fc.clearPending
  {
  }

  lemma {:induction false} NeverRead(c: Config, s: State, n: nat)
    requires !s.fc.clearPending
    ensures !TickN(c, s, n).fc.clearPending
    decreases n
  {
    hide Tick;
    if n > 0 {
      TickParts(c, s);
      NeverRead(c, Tick(c, s), n - 1);
    }
  }

  lemma RateWritten(c: Config, s: State)
    requires |s.chEn| == 5 && Unset(c, s.dmc)
    ensures var t := Write(c, s, 0x4010, 0x4F);
      && t.cycle == s.cycle && t.fc == s.fc && Idle(c, t.dmc) && t.dmc.loop
      && ExpiryTicks(t.dmc, s.cycle) == ToGo(s.dmc, s.cycle) + 324
  {
  }

  lemma SampleWritten(c: Config, s: State, v: int)
    requires |s.chEn| == 5 && c.dmcEnabled
    ensures Write(c, s, 0x4013, v) == s.(dmc := s.dmc.(startLen := v * 16 + 1))
  {
  }

  lemma LengthKeepsIdle(c: Config, d: Dmc, e: Dmc, cycle: nat)
    requires Idle(c, d) && e == d.(startLen := e.startLen)
    ensures Idle(c, e) && ExpiryTicks(e, cycle) == ExpiryTicks(d, cycle) && e.loop == d.loop
  {
  }

  lemma IdleFor(c: Config, s: State, n: nat)
    requires Idle(c, s.dmc) && n < ExpiryTicks(s.dmc, s.cycle)
    ensures var t := TickN(c, s, n);
      && t.cycle == s.cycle + n && Idle(c, t.dmc) && ExpiryTicks(t.dmc, t.cycle) == ExpiryTicks(s.dmc, s.cycle) - n
      && t.dmc.startLen == s.dmc.startLen && t.dmc.loop == s.dmc.loop
  {
    hide Idle, ExpiryTicks, Tick, TickDmc;
    TickNIgnoresDmc(c, s, s.dmc, n);
    IdleCycles(c, s.dmc, s.cycle, n);
  }

  /** A write of $40 to $4017 on an even cycle lands with the fourth cycle and starts the sequence over. */
  lemma FrameWritten(c: Config, s: State)
    requires |s.chEn| == 5 && !s.fc.clearPending && s.cycle % 2 == 0
    ensures var t := Write(c, s, 0x4017, 0x40);
      t.dmc == s.dmc && t.cycle == s.cycle && t.fc.writeDelay == 4 && t.fc.newValue == 0x40 && !t.fc.clearPending
  {
  }

  lemma FrameLands(c: Config, s: State)
    requires s.fc.writeDelay == 4 && s.fc.newValue == 0x40 && !s.fc.clearPending
    ensures PlainFrame(TickN(c, s, 4).fc) && TickN(c, s, 4).fc.div == 1
  {
    hide Tick;
    var s1 := Tick(c, s);
    var s2 := Tick(c, s1);
    var s3 := Tick(c, s2);
    TickParts(c, s);
    TickParts(c, s1);
    TickParts(c, s2);
    TickParts(c, s3);
    assert TickN(c, Tick(c, s3), 0) == Tick(c, s3);
    assert TickN(c, s2, 2) == TickN(c, s3, 1) == Tick(c, s3);
    assert TickN(c, s, 4) == TickN(c, s1, 3) == TickN(c, s2, 2);
  }

  lemma FrameFor(c: Config, s: State, n: nat)
    requires s.fc.writeDelay == 4 && s.fc.newValue == 0x40 && !s.fc.clearPending && n < 29000
    ensures PlainFrame(TickN(c, s, 4 + n).fc) && TickN(c, s, 4 + n).fc.div == 1 + n
  {
    hide Tick, PlainFrame;
    FrameLands(c, s);
    FrameCounts(c, TickN(c, s, 4), n);
    TickNCompose(c, s, 4, n);
  }

  lemma WarmedUp(c: Config)
    requires c.dmcEnabled && c.dmaExternal
    ensures RunOps(c, Reset(c), WarmUp()).Some?
    ensures var s := RunOps(c, Reset(c), WarmUp()).value;
      && s.cycle == WARM && Idle(c, s.dmc) && ExpiryTicks(s.dmc, WARM) == 4 && s.dmc.startLen == 1 && s.dmc.loop
      && PlainFrame(s.fc) && s.fc.div == 297
  {
    hide Inv, Tick, Write, ExpiryTicks, PlainFrame, RunOps, Idle, Unset, ToGo, TickN, Time;
    var last := Time(300);
    var more := Time(130988) + ([WriteReg(0x4017, 0x40)] + last);
    UnsetFor(c, 100);
    Stretch(c, Reset(c), 100, 0x4010, 0x4F, Time(6) + ([WriteReg(0x4013, 0)] + more));
    var a := TickN(c, Reset(c), 100);
    RateWritten(c, a);
    var s1 := Write(c, a, 0x4010, 0x4F);
    IdleFor(c, s1, 6);
    Stretch(c, s1, 6, 0x4013, 0, more);
    NeverRead(c, s1, 6);
    var b := TickN(c, s1, 6);
    SampleWritten(c, b, 0);
    var s2 := Write(c, b, 0x4013, 0);
    LengthKeepsIdle(c, b.dmc, s2.dmc, 106);
    IdleFor(c, s2, 130988);
    Stretch(c, s2, 130988, 0x4017, 0x40, last);
    NeverRead(c, s2, 130988);
    var d := TickN(c, s2, 130988);
    FrameWritten(c, d);
    var s3 := Write(c, d, 0x4017, 0x40);
    IdleFor(c, s3, 300);
    FrameFor(c, s3, 296);
    RunsOut(c, s3, 300);
  }

  lemma RunsOut(c: Config, s: State, n: nat)
    requires Inv(c, s)
    ensures RunOps(c, s, Time(n)) == Some(TickN(c, s, n))
  {
    hide Inv, Tick, RunOps;
    TimePasses(c, s, n, []);
    RunNothing(c, TickN(c, s, n));
    assert Time(n) + [] == Time(n);
  }

  lemma RunNothing(c: Config, s: State)
    requires Inv(c, s)
    ensures RunOps(c, s, []) == Some(s)
  {
    hide Inv;
  }

  lemma WarmUpQuiet()
    ensures NoDelivery(WarmUp())
  {
  }

  // ---------------------------------------------------------- the lazy machine on it

  /** Brought up to date, with its deadline due. */
  lemma CycleSyncs(c: Config, m: Machine)
    requires Inv(c, m.apu) && m.apu.cycle == m.now && m.deadline <= m.now + 1
    ensures |m.apu.chEn| == 5
    ensures LazyApply(c, m, Cycle) == Machine(Tick(c, m.apu), m.now + 1, m.now + 1 + UntilEvent(c, Tick(c, m.apu)))
  {
    hide Inv, Tick, UntilEvent;
    InvSize(c, m.apu);
    ThreeTicks(c, m.apu);
  }

  lemma CycleWaits(c: Config, m: Machine)
    requires |m.apu.chEn| == 5 && m.now + 1 < m.deadline
    ensures LazyApply(c, m, Cycle) == m.(now := m.now + 1)
  {
    hide UntilEvent, Tick;
  }

  lemma StartingIsWatched(c: Config, s: State)
    requires Starting(c, s.dmc)
    ensures UntilEvent(c, s) == 0
  {
    hide ExpiryTicks;
  }

  lemma RequestIsNot(c: Config, s: State)
    requires Waiting(c, s.dmc, s.cycle) && PlainFrame(s.fc) && s.fc.div < 400
    ensures UntilEvent(c, s) > 400
  {
    hide ExpiryTicks, DmcInv;
    WaitingParts(c, s.dmc, s.cycle);
  }

  /** The start, on both machines. */
  lemma StartedOn(c: Config, m: Machine, s: State)
    requires Follows(c, m, s) && c.dmcEnabled && c.dmaExternal
    requires s.cycle == WARM && Idle(c, s.dmc) && ExpiryTicks(s.dmc, WARM) == 4 && s.dmc.startLen == 1 && s.dmc.loop
    requires PlainFrame(s.fc) && s.fc.div == 297
    ensures |s.chEn| == 5 && |m.apu.chEn| == 5
    ensures var t := TickN(c, Write(c, s, 0x4015, 0x10), 3);
      && Asked(c, t) && RunOps(c, s, START) == Some(TickN(c, t, 2))
      && LazyRun(c, m, START) == Machine(t, WARM + 5, WARM + 3 + UntilEvent(c, t))
  {
    hide Inv, Tick, TickDmc, Write, ExpiryTicks, UntilEvent, RunOps, Waiting, Starting, PlainFrame, Follows, LazyApply, TickN, Asked;
    FollowsSizes(c, m, s);
    InvSize(c, s);
    StartedIs(c, s);
    InvWrite(c, s, 0x4015, 0x10);
    StartRun(c, s);
    ThreeOn(c, Write(c, s, 0x4015, 0x10));
    StartLazy(c, m, s);
  }

  /** Asking for a byte one cycle before the output unit wants it, with one byte left of an endless sample. */
  predicate Asked(c: Config, t: State) {
    && Inv(c, t) && t.cycle == WARM + 3 && Waiting(c, t.dmc, WARM + 3) && ExpiryTicks(t.dmc, WARM + 3) == 1 && t.dmc.period > 0
    && t.dmc.bytesRem == 1 && t.dmc.startLen == 1 && t.dmc.loop && PlainFrame(t.fc) && t.fc.div < 400
  }

  lemma ThreeOn(c: Config, u: State)
    requires Inv(c, u) && u.cycle == WARM && Starting(c, u.dmc) && u.dmc.startDelay == 3 && ExpiryTicks(u.dmc, WARM) == 4
    requires u.dmc.bytesRem == 1 && u.dmc.startLen == 1 && u.dmc.loop && PlainFrame(u.fc) && u.fc.div == 297
    ensures Asked(c, TickN(c, u, 3))
    ensures forall k: nat :: k < 3 ==> Starting(c, TickN(c, u, k).dmc)
  {
    hide Inv, Tick, TickDmc, ExpiryTicks, Waiting, Starting, PlainFrame;
    var t := TickN(c, u, 3);
    TickNInv(c, u, 3);
    TickNIgnoresDmc(c, u, u.dmc, 3);
    ThreeCycles(c, u.dmc, WARM);
    PendingIsWaiting(c, t);
    FrameCounts(c, u, 3);
    forall k: nat | k < 3 ensures Starting(c, TickN(c, u, k).dmc) { TickNIgnoresDmc(c, u, u.dmc, k); }
  }

  lemma StartRun(c: Config, s: State)
    requires Inv(c, s) && |s.chEn| == 5
    ensures RunOps(c, s, START) == Some(TickN(c, TickN(c, Write(c, s, 0x4015, 0x10), 3), 2))
  {
    hide Inv, Tick, Write, RunOps;
    var u, cycles := Write(c, s, 0x4015, 0x10), seq(5, _ => Cycle);
    TraceStep(c, s, WriteReg(0x4015, 0x10), cycles);
    assert START == [WriteReg(0x4015, 0x10)] + cycles && cycles + [] == cycles;
    RunCycles(c, u, 5, []);
    RunNothing(c, TickN(c, u, 5));
    TickNCompose(c, u, 3, 2);
  }

  lemma StartLazy(c: Config, m: Machine, s: State)
    requires Follows(c, m, s) && s.cycle == WARM && |s.chEn| == 5 && |m.apu.chEn| == 5
    requires var u := Write(c, s, 0x4015, 0x10); Inv(c, u) && u.cycle == WARM && Asked(c, TickN(c, u, 3))
    requires forall k: nat :: k < 3 ==> Starting(c, TickN(c, Write(c, s, 0x4015, 0x10), k).dmc)
    ensures var t := TickN(c, Write(c, s, 0x4015, 0x10), 3); LazyRun(c, m, START) == Machine(t, WARM + 5, WARM + 3 + UntilEvent(c, t))
  {
    hide Inv, Tick, Write, UntilEvent, Starting, Follows, LazyApply, Waiting, ExpiryTicks, PlainFrame;
    var u := Write(c, s, 0x4015, 0x10);
    ThreeTicks(c, u);
    assert TickN(c, u, 0) == u;
    var u1, u2, u3 := TickN(c, u, 1), TickN(c, u, 2), TickN(c, u, 3);
    assert Starting(c, TickN(c, u, 1).dmc) && Starting(c, TickN(c, u, 2).dmc);
    TickNInv(c, u, 1);
    TickNInv(c, u, 2);
    WriteSyncs(c, m, s);
    var m0 := Machine(u, WARM, 0);
    CycleSyncs(c, m0);
    var m1 := Machine(u1, WARM + 1, WARM + 1 + UntilEvent(c, u1));
    StartingIsWatched(c, u1);
    CycleSyncs(c, m1);
    var m2 := Machine(u2, WARM + 2, WARM + 2 + UntilEvent(c, u2));
    StartingIsWatched(c, u2);
    CycleSyncs(c, m2);
    var m3 := Machine(u3, WARM + 3, WARM + 3 + UntilEvent(c, u3));
    RequestIsNot(c, u3);
    InvSize(c, u3);
    CycleWaits(c, m3);
    CycleWaits(c, m3.(now := WARM + 4));
    SixSteps(c, m, m0, m1, m2, m3);
  }

  lemma WriteSyncs(c: Config, m: Machine, s: State)
    requires Follows(c, m, s) && |s.chEn| == 5 && |m.apu.chEn| == 5 && s.cycle == WARM
    ensures LazyApply(c, m, WriteReg(0x4015, 0x10)) == Machine(Write(c, s, 0x4015, 0x10), WARM, 0)
  {
    hide Inv, Tick, Write, UntilEvent;
    SyncCatchesUp(c, m, s);
    FollowsSizes(c, m, s);
  }

  lemma SixSteps(c: Config, m: Machine, m0: Machine, m1: Machine, m2: Machine, m3: Machine)
    requires |m.apu.chEn| == 5 && |m0.apu.chEn| == 5 && |m1.apu.chEn| == 5 && |m2.apu.chEn| == 5 && |m3.apu.chEn| == 5
    requires LazyApply(c, m, WriteReg(0x4015, 0x10)) == m0 && LazyApply(c, m0, Cycle) == m1 && LazyApply(c, m1, Cycle) == m2
    requires LazyApply(c, m2, Cycle) == m3 && LazyApply(c, m3, Cycle) == m3.(now := m3.now + 1)
    requires LazyApply(c, m3.(now := m3.now + 1), Cycle) == m3.(now := m3.now + 2)
    ensures LazyRun(c, m, START) == m3.(now := m3.now + 2)
  {
    hide LazyApply;
    assert START[1..] == [Cycle, Cycle, Cycle, Cycle, Cycle] && START[1..][1..] == [Cycle, Cycle, Cycle, Cycle];
    var m4, m5 := m3.(now := m3.now + 1), m3.(now := m3.now + 2);
    assert LazyRun(c, m5, []) == m5;
    assert [Cycle][1..] == [] && LazyRun(c, m4, [Cycle]) == m5;
    assert [Cycle, Cycle][1..] == [Cycle] && LazyRun(c, m3, [Cycle, Cycle]) == m5;
    assert [Cycle, Cycle, Cycle][1..] == [Cycle, Cycle] && LazyRun(c, m2, [Cycle, Cycle, Cycle]) == m5;
    assert [Cycle, Cycle, Cycle, Cycle][1..] == [Cycle, Cycle, Cycle] && LazyRun(c, m1, [Cycle, Cycle, Cycle, Cycle]) == m5;
    assert START[1..][1..] == [Cycle, Cycle, Cycle, Cycle] && LazyRun(c, m0, START[1..]) == m5;
  }

  // ------------------------------------------------------------ the late delivery

  /** What the two units are at the delivery: the eager one has just looked for the byte, and starts over. */
  lemma JustLooked(c: Config, t: State)
    requires Asked(c, t)
    ensures TakesNow(t.dmc, WARM + 3) && !NotTaken(t.dmc, WARM + 3, 3) && c.dmcEnabled && c.dmaExternal && 1 <= t.dmc.bitsRem
    ensures var d := TickN(c, t, 2).dmc; d.dmaPending && d.bitsRem == 8 && SameReader(t.dmc, d)
  {
    hide Inv, Tick, TickDmc, DmcTimer, ExpiryTicks, PlainFrame, SameReader, DmcInv;
    var d := t.dmc;
    WaitingParts(c, d, WARM + 3);
    EnabledByWaiting(c, d, WARM + 3);
    PredictedNow(d, WARM + 3);
    WaitingCycle(c, d, WARM + 3);
    WaitingCycle(c, DmcTimer(d, WARM + 4), WARM + 4);
    WaitingReader(c, d, WARM + 3, 2);
    TickNIgnoresDmc(c, t, d, 2);
    DmcThree(c, d, WARM + 3);
    NewRound(d);
    ReaderPending(d, DmcN(c, d, WARM + 3, 2));
  }

  lemma NewRound(d: Dmc)
    requires TakesNow(d, WARM + 3)
    ensures DmcTimer(DmcTimer(d, WARM + 4), WARM + 5).bitsRem == 8
  {
    hide DmcLevel;
  }

  lemma ReaderPending(d: Dmc, e: Dmc)
    requires SameReader(d, e)
    ensures e.dmaPending == d.dmaPending
  {
  }

  /** The eager unit does not ask in the next cycle, ... */
  lemma EagerIsQuiet(c: Config, t: State, b: int)
    requires Asked(c, t)
    ensures var s := TickN(c, t, 2); Inv(c, Fill(s, b)) && !Tick(c, Fill(s, b)).dmc.dmaPending && s.cycle == WARM + 5 && s.dmc.dmaPending
  {
    hide Inv, Tick, TickDmc, ExpiryTicks, PlainFrame, SameReader, DmcInv, Waiting, TickN, DmcFill;
    JustLooked(c, t);
    var s := TickN(c, t, 2);
    TickNInv(c, t, 2);
    AskedCounts(t.dmc, s.dmc);
    InvFill(c, s, b);
    FilledOne(s.dmc, b);
    WaitingParts(c, t.dmc, WARM + 3);
    InvParts(c, Fill(s, b));
    FillCycle(s, b);
    TickParts(c, Fill(s, b));
    PlayingOneCycle(c, DmcFill(s.dmc, b), WARM + 5);
  }

  lemma AskedCounts(d: Dmc, e: Dmc)
    requires SameReader(d, e)
    ensures e.bytesRem == d.bytesRem && e.loop == d.loop && e.startLen == d.startLen && e.startDelay == d.startDelay
  {
  }

  lemma FilledOne(d: Dmc, b: int)
    requires d.bytesRem == 1 && d.loop && d.startLen == 1
    ensures var e := DmcFill(d, b); !e.bufEmpty && e.bytesRem == 1 && e.startDelay == d.startDelay && e.bitsRem == d.bitsRem
  {
  }

  /** ... but the lazy one, its byte gone in the past, does. */
  lemma LazyAsks(c: Config, t: State, b: int)
    requires Asked(c, t)
    ensures TickN(c, Fill(t, b), 3).dmc.dmaPending && Inv(c, Fill(t, b))
  {
    hide Inv, Tick, TickDmc, ExpiryTicks, PlainFrame, DmcInv, TickN, DmcFill, NotTaken, Waiting;
    JustLooked(c, t);
    var d := t.dmc;
    WaitingParts(c, d, WARM + 3);
    AskedPending(c, t);
    InvFill(c, t, b);
    TickNInv(c, Fill(t, b), 3);
    TickNIgnoresDmc(c, Fill(t, b), DmcFill(d, b), 3);
    FillCycle(t, b);
    LateIsTaken(c, d, b, WARM + 3, 3);
    FilledOne(d, b);
    CountStays(c, DmcFill(d, b), WARM + 3, 3);
    EmptyAsks(c, TickN(c, Fill(t, b), 3));
  }

  lemma AskedPending(c: Config, t: State)
    requires Asked(c, t)
    ensures t.dmc.dmaPending
  {
    hide Inv, DmcInv, ExpiryTicks;
  }

  lemma EmptyAsks(c: Config, s: State)
    requires Inv(c, s) && c.dmcEnabled && c.dmaExternal && s.dmc.bufEmpty && s.dmc.bytesRem > 0 && s.dmc.startDelay == 0
    ensures s.dmc.dmaPending
  {
    hide FrameInv, PulseInv;
  }

  /** The last two operations, on both machines. */
  lemma DeliveryDiffers(c: Config, t: State, b: int, deadline: int)
    requires Asked(c, t)
    ensures var s, m := TickN(c, t, 2), Machine(t, WARM + 5, deadline);
      && |t.chEn| == 5 && Inv(c, s) && RunOps(c, s, Delivery(b)).Some?
      && LazyTrace(c, m, Delivery(b)) != EagerTrace(c, s, Delivery(b))
  {
    hide Inv, Tick, ExpiryTicks, PlainFrame, Waiting, UntilEvent, Fill, RunOps, EagerTrace, TickN;
    InvSize(c, t);
    TickNInv(c, t, 2);
    EagerIsQuiet(c, t, b);
    LazyAsks(c, t, b);
    var s, m := TickN(c, t, 2), Machine(t, WARM + 5, deadline);
    TraceStep(c, s, Deliver(b), [Cycle]);
    assert Delivery(b) == [Deliver(b)] + [Cycle] && [Cycle] == [Cycle] + [];
    TraceStep(c, Fill(s, b), Cycle, []);
    InvTick(c, Fill(s, b));
    RunNothing(c, Tick(c, Fill(s, b)));
    FillCycle(t, b);
    LazyLast(c, m, b);
    assert EagerTrace(c, s, Delivery(b))[1].1.dmaPending == false;
  }

  lemma LazyLast(c: Config, m: Machine, b: int)
    requires |m.apu.chEn| == 5 && m.apu.cycle == WARM + 3 && m.now == WARM + 5
    ensures |LazyTrace(c, m, Delivery(b))| == 2
    ensures LazyTrace(c, m, Delivery(b))[1].1.dmaPending == TickN(c, Fill(m.apu, b), 3).dmc.dmaPending
  {
    hide Tick, UntilEvent, Fill, TickN, LazyAnswer;
    FillKeepsEnables(m.apu, b);
    FillCycle(m.apu, b);
    var m1 := LazyApply(c, m, Deliver(b));
    assert Delivery(b)[1..] == [Cycle] && [Cycle][1..] == [];
    assert LazyTrace(c, m1, [Cycle])[0].1 == Visible(LazyApply(c, m1, Cycle).apu);
  }

  /** From reset, by an ordinary run whose one delivery comes two cycles after the request: the CPU sees
      a request the per-cycle machine does not make. */
  lemma LateRunDiffers(c: Config, b: int)
    requires c.dmcEnabled && c.dmaExternal
    ensures RunOps(c, Reset(c), LateRun(b)).Some?
    ensures LazyTrace(c, PowerOn(), LateRun(b)) != EagerTrace(c, Reset(c), LateRun(b))
  {
    hide Inv, Tick, Write, ExpiryTicks, PlainFrame, RunOps, LazyTrace, EagerTrace, LazyRun, Follows, Idle, WarmUp, TickN, UntilEvent,
         InitState, Asked, NoDelivery, PowerOn, Delivery;
    WarmedUp(c);
    WarmUpQuiet();
    PowerOnFollows(c);
    NoDeliveryRuns(c, PowerOn(), Reset(c), WarmUp());
    var s3, m3 := RunOps(c, Reset(c), WarmUp()).value, LazyRun(c, PowerOn(), WarmUp());
    StartedOn(c, m3, s3);
    var t := TickN(c, Write(c, s3, 0x4015, 0x10), 3);
    var s9, m9 := TickN(c, t, 2), Machine(t, WARM + 5, WARM + 3 + UntilEvent(c, t));
    DeliveryDiffers(c, t, b, m9.deadline);
    EagerTraceAppend(c, s3, START, Delivery(b));
    LazyTraceAppend(c, m3, START, Delivery(b));
    EagerTraceAppend(c, Reset(c), WarmUp(), START + Delivery(b));
    LazyTraceAppend(c, PowerOn(), WarmUp(), START + Delivery(b));
    EndsDiffer(LazyTrace(c, m3, START), EagerTrace(c, s3, START), LazyTrace(c, m9, Delivery(b)), EagerTrace(c, s9, Delivery(b)));
    EndsDiffer(LazyTrace(c, PowerOn(), WarmUp()), EagerTrace(c, Reset(c), WarmUp()),
               LazyTrace(c, m3, START + Delivery(b)), EagerTrace(c, s3, START + Delivery(b)));
  }

  lemma EndsDiffer<T>(a: seq<T>, b: seq<T>, x: seq<T>, y: seq<T>)
    requires |a| == |b| && x != y
    ensures a + x != b + y
  {
    assert (a + x)[|a|..] == x && (b + y)[|b|..] == y;
  }

  // ------------------------------------------------- a channel started without a rate

  /** A CPU's run from reset: time, a sample of 17 bytes, the start, and the first byte delivered as it is
      asked for; $4010 is never written. */
  function UnsetRun(b: int): seq<Op> {
    Time(100) + ([WriteReg(0x4013, 1)] + (Time(6) + ([WriteReg(0x4015, 0x10)] + (Time(3) + [Deliver(b)]))))
  }

  lemma UnsetStart(c: Config, s: State)
    requires |s.chEn| == 5 && Unset(c, s.dmc) && s.cycle % 2 == 0 && s.dmc.startLen == 17
    ensures var t := Write(c, s, 0x4015, 0x10);
      && t.cycle == s.cycle
      && t.dmc == s.dmc.(startDelay := 3, bytesRem := 17, curAddr := t.dmc.curAddr, irqFlag := t.dmc.irqFlag)
  {
  }

  lemma UnsetDelay(c: Config, d: Dmc, cycle: nat)
    requires c.dmcEnabled && c.dmaExternal && d.timer > 0 && d.startDelay > 0 && d.bufEmpty && d.bytesRem > 0
    ensures TickDmc(c, d, cycle) == d.(timer := if cycle % 2 == 0 then d.timer - 1 else d.timer,
                                       startDelay := d.startDelay - 1, dmaPending := d.dmaPending || d.startDelay == 1)
  {
  }

  /** The prediction is early on it: at the predicted cycle nothing is asked for. */
  lemma UnsetRunIsEarly(c: Config, b: int)
    requires c.dmcEnabled && c.dmaExternal
    ensures RunOps(c, Reset(c), UnsetRun(b)).Some?
    ensures var s := RunOps(c, Reset(c), UnsetRun(b)).value;
      && Playing(c, s.dmc, s.cycle) && s.dmc.period == 0 && s.dmc.bitsRem == 7
      && !DmcN(c, s.dmc, s.cycle, ExpiryTicks(s.dmc, s.cycle)).dmaPending
  {
    hide Inv, Tick, TickDmc, DmcInv, Write, ExpiryTicks, RunOps, Unset, ToGo, TickN, Time, Fill, DmcN;
    var end := Time(3) + [Deliver(b)];
    UnsetFor(c, 100);
    Stretch(c, Reset(c), 100, 0x4013, 1, Time(6) + ([WriteReg(0x4015, 0x10)] + end));
    var a := TickN(c, Reset(c), 100);
    SampleWritten(c, a, 1);
    var s1 := Write(c, a, 0x4013, 1);
    LongSample(c, a.dmc, s1.dmc, 100);
    UnsetStretch(c, s1, 6);
    Stretch(c, s1, 6, 0x4015, 0x10, end);
    var s2 := TickN(c, s1, 6);
    UnsetStart(c, s2);
    var s3 := Write(c, s2, 0x4015, 0x10);
    TimePasses(c, s3, 3, [Deliver(b)]);
    var t := TickN(c, s3, 3);
    TimerLong(s2.dmc, 106);
    UnsetAsks(c, s2.dmc, s3);
    assert [Deliver(b)] == [Deliver(b)] + [];
    TraceStep(c, t, Deliver(b), []);
    RunNothing(c, Fill(t, b));
    UnsetPlays(c, t, b);
    ExpiryPositive(c, Fill(t, b));
    UnsetRateIsEarly(c, Fill(t, b).dmc, t.cycle, ExpiryTicks(Fill(t, b).dmc, t.cycle));
  }

  lemma LongSample(c: Config, d: Dmc, e: Dmc, cycle: nat)
    requires Unset(c, d) && e == d.(startLen := 17)
    ensures Unset(c, e) && ToGo(e, cycle) == ToGo(d, cycle)
  {
  }

  lemma UnsetStretch(c: Config, s: State, n: nat)
    requires Unset(c, s.dmc) && n < ToGo(s.dmc, s.cycle)
    ensures var t := TickN(c, s, n);
      t.cycle == s.cycle + n && Unset(c, t.dmc) && ToGo(t.dmc, t.cycle) == ToGo(s.dmc, s.cycle) - n && t.dmc.startLen == s.dmc.startLen
  {
    hide Unset, ToGo, Tick, TickDmc;
    TickNIgnoresDmc(c, s, s.dmc, n);
    UnsetCycles(c, s.dmc, s.cycle, n);
  }

  lemma TimerLong(d: Dmc, cycle: nat)
    requires ToGo(d, cycle) > 100
    ensures d.timer > 10
  {
  }

  /** Three cycles after the start the byte is asked for. */
  lemma UnsetAsks(c: Config, d: Dmc, s: State)
    requires Unset(c, d) && d.timer > 10
    requires s.dmc == d.(startDelay := 3, bytesRem := 17, curAddr := s.dmc.curAddr, irqFlag := s.dmc.irqFlag)
    ensures var e := TickN(c, s, 3).dmc;
      e.dmaPending && e.bufEmpty && e.startDelay == 0 && e.bytesRem == 17 && e.period == 0 && e.bitsRem == 7
  {
    hide TickDmc, Tick;
    var d1 := TickDmc(c, s.dmc, s.cycle + 1);
    var d2 := TickDmc(c, d1, s.cycle + 2);
    UnsetDelay(c, s.dmc, s.cycle + 1);
    UnsetDelay(c, d1, s.cycle + 2);
    UnsetDelay(c, d2, s.cycle + 3);
    DmcThree(c, s.dmc, s.cycle);
    TickNIgnoresDmc(c, s, s.dmc, 3);
  }

  lemma UnsetPlays(c: Config, t: State, b: int)
    requires Inv(c, t) && c.dmcEnabled && c.dmaExternal
    requires t.dmc.dmaPending && t.dmc.startDelay == 0 && t.dmc.bytesRem == 17 && t.dmc.period == 0 && t.dmc.bitsRem == 7
    ensures var s := Fill(t, b); s.cycle == t.cycle && Playing(c, s.dmc, s.cycle) && s.dmc.period == 0 && s.dmc.bitsRem == 7
  {
    hide Inv, DmcInv;
    InvFill(c, t, b);
    InvParts(c, Fill(t, b));
  }

  lemma ExpiryPositive(c: Config, s: State)
    requires Playing(c, s.dmc, s.cycle)
    ensures ExpiryTicks(s.dmc, s.cycle) >= 1
  {
    hide DmcInv, ExpiryTicks;
    PlayingParts(c, s.dmc, s.cycle);
    PredictedNow(s.dmc, s.cycle);
  }
}
