/** A machine that leaves the 2A03 behind and catches up, against one that ticks it every cycle
    (the batch mode of hardware/machine/mos/machine_nes.c). */
module ApuMachine {
  import opened Apu
  import opened ApuLazy

  // ------------------------------------------------- delivering to a stale unit

  /** A DMA is under way: the state in which a byte may be delivered. */
  predicate Waiting(c: Config, d: Dmc, cycle: nat) {
    DmcInv(c, d, cycle) && c.dmcEnabled && c.dmaExternal && d.dmaPending
  }

  /** The output unit does not look at the buffer within n cycles. */
  predicate NotTaken(d: Dmc, cycle: nat, n: nat)
    decreases n
  {
    n == 0 || (!TakesNow(d, cycle) && NotTaken(DmcTimer(d, cycle + 1), cycle + 1, n - 1))
  }

  lemma WaitingCycle(c: Config, d: Dmc, cycle: nat)
    requires Waiting(c, d, cycle)
    ensures TickDmc(c, d, cycle + 1) == DmcTimer(d, cycle + 1)
    ensures Waiting(c, TickDmc(c, d, cycle + 1), cycle + 1)
    ensures d.bufEmpty && d.bytesRem > 0 && 1 <= d.bitsRem <= 8 && d.timer >= 0 && RatePeriod(d.period)
  {
    hide DmcTimer, DmcInv;
    DmcKept(c, d, cycle);
    WaitingParts(c, d, cycle);
    TimerEffect(d, cycle + 1);
  }

  lemma WaitingParts(c: Config, d: Dmc, cycle: nat)
    requires Waiting(c, d, cycle)
    ensures d.bufEmpty && d.bytesRem > 0 && d.startDelay == 0 && 1 <= d.bitsRem <= 8 && d.timer >= 0 && RatePeriod(d.period)
    ensures c.dmaExternal
  {
  }

  lemma ReaderIdle(c: Config, d: Dmc)
    ensures !d.bufEmpty && d.startDelay == 0 ==> DmcReader(c, d) == d
    ensures c.dmaExternal ==> DmcReader(c, d).bufEmpty == d.bufEmpty
  {
  }

  lemma FilledFields(d: Dmc, b: int)
    ensures DmcFill(d, b).startDelay == d.startDelay && (d.bytesRem > 0 ==> !DmcFill(d, b).bufEmpty)
  {
  }

  /** Unless the buffer is taken, delivering commutes with a cycle. */
  lemma FillThenCycle(c: Config, d: Dmc, b: int, cycle: nat)
    requires Waiting(c, d, cycle)
    ensures !TakesNow(d, cycle) ==>
      TickDmc(c, DmcFill(d, b), cycle + 1) == DmcFill(TickDmc(c, d, cycle + 1), b)
    ensures TakesNow(d, cycle) ==> TickDmc(c, DmcFill(d, b), cycle + 1).bufEmpty
  {
    hide DmcInv, DmcTimer, DmcFill, DmcReader, SameReader;
    WaitingParts(c, d, cycle);
    WaitingCycle(c, d, cycle);
    TimerOfFilled(d, b, cycle + 1);
    TimerKeepsReader(d, cycle + 1);
    FilledFields(DmcTimer(d, cycle + 1), b);
    ReaderIdle(c, DmcTimer(DmcFill(d, b), cycle + 1));
  }

  lemma TimerKeepsReader(d: Dmc, cycle: nat)
    ensures DmcTimer(d, cycle).startDelay == d.startDelay && DmcTimer(d, cycle).bytesRem == d.bytesRem
  {
    hide DmcOutput;
    OutputKeepsReader(d);
  }

  lemma OutputKeepsReader(d: Dmc)
    ensures DmcOutput(d).startDelay == d.startDelay && DmcOutput(d).bytesRem == d.bytesRem
    ensures d.bufEmpty ==> DmcOutput(d).bufEmpty
  {
    hide DmcLevel;
  }

  lemma TimerOfFilled(d: Dmc, b: int, cycle: nat)
    requires 1 <= d.bitsRem <= 8 && d.timer >= 0 && d.bufEmpty && d.bytesRem > 0
    ensures !(cycle % 2 == 0 && d.timer == 0 && d.bitsRem == 1) ==>
      DmcTimer(DmcFill(d, b), cycle) == DmcFill(DmcTimer(d, cycle), b)
    ensures cycle % 2 == 0 && d.timer == 0 && d.bitsRem == 1 ==> DmcTimer(DmcFill(d, b), cycle).bufEmpty
  {
    hide DmcOutput, DmcFill;
    FillKeepsTimer(d, b);
    OutputOfFilled(d, b);
  }

  lemma FillKeepsTimer(d: Dmc, b: int)
    ensures DmcFill(d, b).timer == d.timer && DmcFill(d, b).bitsRem == d.bitsRem
    ensures DmcFill(d.(timer := d.timer - 1), b) == DmcFill(d, b).(timer := d.timer - 1)
  {
    hide DmcFill;
    FilledParts(d, b);
    FillEarlier(d, d.timer - 1, b);
  }

  lemma FillEarlier(d: Dmc, t: int, b: int)
    ensures DmcFill(d.(timer := t), b) == DmcFill(d, b).(timer := t)
  {
    hide DmcFill, Filled, AddrAfter, LeftAfter, IrqAfter;
    var e := d.(timer := t);
    FillCases(d, b);
    FillCases(e, b);
    AfterSame(d, t);
    FilledEarlier(d, t, b, AddrAfter(d), LeftAfter(d), IrqAfter(d));
  }

  lemma FillCases(d: Dmc, b: int)
    ensures d.bytesRem == 0 ==> DmcFill(d, b) == d.(dmaPending := false)
    ensures d.bytesRem != 0 ==> DmcFill(d, b) == Filled(d, b, AddrAfter(d), LeftAfter(d), IrqAfter(d))
  {
    hide Filled, AddrAfter, LeftAfter, IrqAfter;
  }

  lemma AfterSame(d: Dmc, t: int)
    ensures var e := d.(timer := t);
      e.bytesRem == d.bytesRem && AddrAfter(e) == AddrAfter(d) && LeftAfter(e) == LeftAfter(d) && IrqAfter(e) == IrqAfter(d)
  {
  }

  lemma FilledEarlier(d: Dmc, t: int, b: int, addr: int, left: int, irq: bool)
    ensures Filled(d.(timer := t), b, addr, left, irq) == Filled(d, b, addr, left, irq).(timer := t)
    ensures d.(timer := t).(dmaPending := false) == d.(dmaPending := false).(timer := t)
  {
  }

  lemma OutputOfFilled(d: Dmc, b: int)
    requires 1 <= d.bitsRem <= 8 && d.bufEmpty && d.bytesRem > 0
    ensures d.bitsRem > 1 ==> DmcOutput(DmcFill(d, b)) == DmcFill(DmcOutput(d), b)
    ensures d.bitsRem == 1 ==> DmcOutput(DmcFill(d, b)).bufEmpty
  {
    hide DmcLevel;
    FillKeepsLevel(d, b);
  }

  lemma FillKeepsLevel(d: Dmc, b: int)
    ensures DmcLevel(DmcFill(d, b)) == DmcLevel(d)
  {
  }

  /** Delivering to a unit n cycles behind is the same as delivering on time exactly when
      the output unit did not look for the byte meanwhile. */
  lemma {:induction false} LateDeliveryExactly(c: Config, d: Dmc, b: int, cycle: nat, n: nat)
    requires Waiting(c, d, cycle)
    ensures DmcN(c, DmcFill(d, b), cycle, n) == DmcFill(DmcN(c, d, cycle, n), b) <==> NotTaken(d, cycle, n)
    ensures Waiting(c, DmcN(c, d, cycle, n), cycle + n)
    decreases n
  {
    hide Waiting, TickDmc, DmcFill, TakesNow, DmcTimer, DmcInv;
    if n > 0 {
      WaitingParts(c, d, cycle);
      WaitingCycle(c, d, cycle);
      FillThenCycle(c, d, b, cycle);
      var e := TickDmc(c, d, cycle + 1);
      LateDeliveryExactly(c, e, b, cycle + 1, n - 1);
      if TakesNow(d, cycle) {
        EmptyStaysEmpty(c, TickDmc(c, DmcFill(d, b), cycle + 1), cycle + 1, n - 1);
        WaitingParts(c, DmcN(c, d, cycle, n), cycle + n);
        FilledFields(DmcN(c, d, cycle, n), b);
      }
    }
  }

  /** With external DMA only a delivery fills the buffer. */
  lemma {:induction false} EmptyStaysEmpty(c: Config, d: Dmc, cycle: nat, n: nat)
    requires d.bufEmpty && c.dmaExternal
    ensures DmcN(c, d, cycle, n).bufEmpty
    decreases n
  {
    hide DmcTimer, DmcReader;
    if n > 0 {
      TimerKeepsEmpty(d, cycle + 1);
      ReaderIdle(c, DmcTimer(d, cycle + 1));
      EmptyStaysEmpty(c, TickDmc(c, d, cycle + 1), cycle + 1, n - 1);
    }
  }

  lemma TimerKeepsEmpty(d: Dmc, cycle: nat)
    requires d.bufEmpty
    ensures DmcTimer(d, cycle).bufEmpty
  {
    hide DmcOutput;
    OutputKeepsReader(d);
  }

  /** With a table period the byte is looked for on exactly the predicted cycle. */
  lemma {:induction false} NotTakenExactly(d: Dmc, cycle: nat, n: nat)
    requires 1 <= d.bitsRem <= 8 && d.timer >= 0 && RatePeriod(d.period) && d.period > 0
    ensures NotTaken(d, cycle, n) <==> n < ExpiryTicks(d, cycle)
    decreases n
  {
    hide ExpiryTicks, DmcTimer, TakesNow;
    PredictedNow(d, cycle);
    if n > 0 && ExpiryTicks(d, cycle) > 1 {
      ExpiryCountsDown(d, cycle);
      SameRate(d, cycle + 1);
      TimerRanges(d, cycle + 1);
      NotTakenExactly(DmcTimer(d, cycle + 1), cycle + 1, n - 1);
    }
  }

  lemma TimerRanges(d: Dmc, cycle: nat)
    requires 1 <= d.bitsRem <= 8 && d.timer >= 0
    ensures 1 <= DmcTimer(d, cycle).bitsRem <= 8 && DmcTimer(d, cycle).timer >= 0
  {
    hide SameReader, DmcTimer;
    TimerEffect(d, cycle);
  }

  // ------------------------------------------------------------ the lazy machine

  /** The unit as last brought up to date, the CPU's cycle, and when it must be brought up to date. */
  datatype Machine = Machine(apu: State, now: nat, deadline: int)

  function Sync(c: Config, m: Machine): Machine {
    if m.apu.cycle >= m.now then m
    else
      var a := TickN(c, m.apu, m.now - m.apu.cycle);
      Machine(a, m.now, m.now + UntilEvent(c, a))
  }

  function LazyApply(c: Config, m: Machine, op: Op): (r: Machine)
    requires |m.apu.chEn| == 5
    ensures |r.apu.chEn| == 5
  {
    hide Tick, UntilEvent, Write, Fill;
    TickNKeepsEnables(c, m.apu, m.now - m.apu.cycle);
    TickNKeepsEnables(c, m.apu, m.now + 1 - m.apu.cycle);
    match op
    case Cycle =>
      var m' := m.(now := m.now + 1);
      if m'.now >= m'.deadline then Sync(c, m') else m'
    case WriteReg(addr, v) =>
      var m' := Sync(c, m);
      WriteKeepsEnables(c, m'.apu, addr, v);
      m'.(apu := Write(c, m'.apu, addr, v), deadline := 0)
    case ReadStatus =>
      var m' := Sync(c, m);
      m'.(apu := AfterRead(m'.apu), deadline := 0)
    case Deliver(b) =>
      FillKeepsEnables(m.apu, b);
      m.(apu := Fill(m.apu, b), deadline := 0)
  }

  lemma FillKeepsEnables(s: State, b: int)
    ensures Fill(s, b).chEn == s.chEn
  {
    hide DmcFill;
  }

  lemma WriteKeepsEnables(c: Config, s: State, addr: int, v: int)
    requires |s.chEn| == 5
    ensures |Write(c, s, addr, v).chEn| == 5
  {
    hide Bit, WritePulse, WriteTri, WriteNoise, WriteDmc, DmcStatus;
  }

  lemma {:induction false} TickNKeepsEnables(c: Config, s: State, n: int)
    ensures n >= 0 ==> TickN(c, s, n).chEn == s.chEn
    decreases n
  {
    hide Tick;
    if n > 0 {
      TickParts(c, s);
      TickNKeepsEnables(c, Tick(c, s), n - 1);
    }
  }

  /** The byte a status read returns on either machine (0 for the other operations). */
  function Answer(c: Config, s: State, op: Op): int {
    if op.ReadStatus? then StatusByte(c, s) else 0
  }

  function LazyAnswer(c: Config, m: Machine, op: Op): int { Answer(c, Sync(c, m).apu, op) }

  /** The stale unit, ticked up to now, is the unit that was ticked all along. */
  predicate Follows(c: Config, m: Machine, s: State) {
    && Inv(c, m.apu) && Inv(c, s)
    && m.apu.cycle <= m.now == s.cycle && TickN(c, m.apu, m.now - m.apu.cycle) == s
    && Visible(m.apu) == Visible(s)
    && (m.deadline == 0 || m.deadline == m.apu.cycle + UntilEvent(c, m.apu))
  }

  /** A byte is delivered only to a unit with external DMA, and before the output unit wants it. */
  predicate InTime(c: Config, m: Machine, op: Op) {
    op.Deliver? ==>
      && c.dmaExternal
      && (m.apu.cycle <= m.now && m.apu.dmc.dmaPending ==> NotTaken(m.apu.dmc, m.apu.cycle, m.now - m.apu.cycle))
  }

  lemma {:induction false} TickNInv(c: Config, s: State, n: nat)
    requires Inv(c, s)
    ensures Inv(c, TickN(c, s, n)) && TickN(c, s, n).cycle == s.cycle + n
    decreases n
  {
    hide Inv, Tick;
    if n > 0 {
      TickParts(c, s);
      InvTick(c, s);
      TickNInv(c, Tick(c, s), n - 1);
    }
  }

  lemma {:induction false} TickNLast(c: Config, s: State, n: nat)
    ensures TickN(c, s, n + 1) == Tick(c, TickN(c, s, n))
    decreases n
  {
    hide Tick;
    if n > 0 { TickNLast(c, Tick(c, s), n - 1); }
  }

  /** Catching up gives exactly the eager unit. */
  lemma SyncCatchesUp(c: Config, m: Machine, s: State)
    requires Follows(c, m, s)
    ensures Sync(c, m).apu == s && Sync(c, m).now == m.now
  {
    hide Inv, Tick, UntilEvent, Visible;
    if m.apu.cycle == m.now { assert TickN(c, m.apu, 0) == m.apu; }
  }

  lemma Synced(c: Config, s: State, d: int)
    requires Inv(c, s) && (d == 0 || d == s.cycle + UntilEvent(c, s))
    ensures Follows(c, Machine(s, s.cycle, d), s)
  {
    hide Inv, Tick, UntilEvent, Visible;
    assert TickN(c, s, 0) == s;
  }

  lemma CycleFollows(c: Config, m: Machine, s: State)
    requires Follows(c, m, s)
    ensures Follows(c, LazyApply(c, m, Cycle), Tick(c, s))
  {
    hide Inv, Tick, UntilEvent, Visible;
    var n := m.now - m.apu.cycle;
    TickNLast(c, m.apu, n);
    TickNInv(c, m.apu, n + 1);
    if m.now + 1 >= m.deadline {
      Synced(c, Tick(c, s), m.now + 1 + UntilEvent(c, Tick(c, s)));
    } else {
      UntilEventSign(c, m.apu);
      PredictorIsSafe(c, m.apu, n + 1);
    }
  }

  lemma UntilEventSign(c: Config, s: State)
    requires Inv(c, s)
    ensures UntilEvent(c, s) >= 0
  {
    hide ExpiryTicks, PulseInv;
    PlayingParts(c, s.dmc, s.cycle);
    PredictedNow(s.dmc, s.cycle);
  }

  lemma AccessFollows(c: Config, m: Machine, s: State, op: Op)
    requires Follows(c, m, s) && Allowed(s, op) && (op.WriteReg? || op.ReadStatus?)
    ensures Follows(c, LazyApply(c, m, op), Apply(c, s, op))
  {
    hide Inv, Tick, UntilEvent, Visible, Write, AfterRead;
    InvSize(c, m.apu);
    InvSize(c, s);
    SyncCatchesUp(c, m, s);
    AccessKeepsCycle(c, s, op);
    InvApply(c, s, op);
    Synced(c, Apply(c, s, op), 0);
  }

  lemma InvSize(c: Config, s: State)
    requires Inv(c, s)
    ensures |s.chEn| == 5
  {
    hide DmcInv, FrameInv, PulseInv;
  }

  lemma AccessKeepsCycle(c: Config, s: State, op: Op)
    requires Inv(c, s) && (op.WriteReg? || op.ReadStatus?)
    ensures Apply(c, s, op).cycle == s.cycle
  {
    hide Inv, Bit, WritePulse, WriteTri, WriteNoise, WriteDmc, DmcStatus, Tick, Fill;
    InvSize(c, s);
  }

  /** Delivering to the stale unit is right if and only if it comes in time. */
  lemma DeliveryExactly(c: Config, m: Machine, s: State, b: int)
    requires Follows(c, m, s) && c.dmaExternal && s.dmc.dmaPending
    ensures TickN(c, Fill(m.apu, b), m.now - m.apu.cycle) == Fill(s, b)
       <==> NotTaken(m.apu.dmc, m.apu.cycle, m.now - m.apu.cycle)
    ensures NotTaken(m.apu.dmc, m.apu.cycle, m.now - m.apu.cycle) ==> Visible(Fill(m.apu, b)) == Visible(Fill(s, b))
  {
    hide Inv, Tick, TickDmc, UntilEvent, DmcFill, NotTaken, Waiting;
    var n := m.now - m.apu.cycle;
    PendingIsWaiting(c, m.apu);
    LateDeliveryExactly(c, m.apu.dmc, b, m.apu.cycle, n);
    TickNIgnoresDmc(c, m.apu, DmcFill(m.apu.dmc, b), n);
    WaitingReader(c, m.apu.dmc, m.apu.cycle, n);
    FillVisible(m.apu.dmc, s.dmc, b);
  }

  lemma PendingIsWaiting(c: Config, s: State)
    requires Inv(c, s) && s.dmc.dmaPending
    ensures Waiting(c, s.dmc, s.cycle)
  {
    hide FrameInv, PulseInv;
  }

  lemma FillVisible(d: Dmc, e: Dmc, b: int)
    requires SameReader(d, e)
    ensures DmcFill(d, b).irqFlag == DmcFill(e, b).irqFlag && !DmcFill(d, b).dmaPending && !DmcFill(e, b).dmaPending
  {
    hide DmcFill;
    FillLines(d, b);
    FillLines(e, b);
  }

  lemma FillLines(d: Dmc, b: int)
    ensures !DmcFill(d, b).dmaPending
    ensures DmcFill(d, b).irqFlag == (d.irqFlag || (d.bytesRem == 1 && !d.loop && d.irqEn))
  {
  }

  lemma {:induction false} WaitingReader(c: Config, d: Dmc, cycle: nat, n: nat)
    requires Waiting(c, d, cycle)
    ensures SameReader(d, DmcN(c, d, cycle, n))
    decreases n
  {
    hide Waiting, TickDmc, DmcTimer;
    if n > 0 {
      WaitingCycle(c, d, cycle);
      TimerEffect(d, cycle + 1);
      WaitingReader(c, TickDmc(c, d, cycle + 1), cycle + 1, n - 1);
    }
  }

  lemma DeliverFollows(c: Config, m: Machine, s: State, b: int)
    requires Follows(c, m, s) && Allowed(s, Deliver(b)) && InTime(c, m, Deliver(b))
    ensures Follows(c, LazyApply(c, m, Deliver(b)), Fill(s, b))
  {
    hide Inv, Tick, UntilEvent, Fill, NotTaken;
    InvSize(c, m.apu);
    FillCycle(m.apu, b);
    FillCycle(s, b);
    InvFill(c, s, b);
    if s.dmc.dmaPending {
      InvFill(c, m.apu, b);
      DeliveryExactly(c, m, s, b);
    } else {
      StoppedFill(c, s, b);
      StoppedUnit(c, m.apu, m.now - m.apu.cycle);
      StoppedFill(c, m.apu, b);
    }
  }

  lemma FillCycle(s: State, b: int)
    ensures Fill(s, b).cycle == s.cycle
  {
    hide DmcFill;
  }

  /** A byte that arrives after the channel was stopped changes nothing. */
  lemma StoppedFill(c: Config, s: State, b: int)
    requires Inv(c, s) && s.dmc.bytesRem == 0
    ensures Fill(s, b) == s
  {
    hide FrameInv, PulseInv;
  }

  lemma {:induction false} StoppedUnit(c: Config, s: State, n: nat)
    requires c.dmaExternal && TickN(c, s, n).dmc.bytesRem == 0
    ensures s.dmc.bytesRem == 0
    decreases n
  {
    hide Tick, TickDmc;
    if n > 0 {
      TickParts(c, s);
      StoppedUnit(c, Tick(c, s), n - 1);
      ReaderKeepsCount(c, s.dmc, s.cycle + 1);
    }
  }

  lemma ReaderKeepsCount(c: Config, d: Dmc, cycle: nat)
    requires c.dmaExternal
    ensures TickDmc(c, d, cycle).bytesRem == d.bytesRem
  {
    hide DmcTimer;
    TimerKeepsReader(d, cycle);
  }

  lemma StepFollows(c: Config, m: Machine, s: State, op: Op)
    requires Follows(c, m, s) && Allowed(s, op) && InTime(c, m, op)
    ensures |m.apu.chEn| == 5 && Follows(c, LazyApply(c, m, op), Apply(c, s, op))
    ensures LazyAnswer(c, m, op) == Answer(c, s, op)
  {
    hide Inv, Tick, UntilEvent, Visible, Write, AfterRead, Fill, NotTaken, StatusByte;
    InvSize(c, m.apu);
    SyncCatchesUp(c, m, s);
    match op {
      case Cycle => CycleFollows(c, m, s);
      case Deliver(b) => DeliverFollows(c, m, s, b);
      case _ => AccessFollows(c, m, s, op);
    }
  }

  /** What the CPU learns from a run: each status byte read, and the lines after each step. */
  function EagerTrace(c: Config, s: State, ops: seq<Op>): seq<(int, Seen)>
    requires Inv(c, s) && RunOps(c, s, ops).Some?
    decreases |ops|
  {
    if ops == [] then []
    else
      hide Inv, Tick;
      InvApply(c, s, ops[0]);
      var s' := Apply(c, s, ops[0]);
      [(Answer(c, s, ops[0]), Visible(s'))] + EagerTrace(c, s', ops[1..])
  }

  function LazyTrace(c: Config, m: Machine, ops: seq<Op>): seq<(int, Seen)>
    requires |m.apu.chEn| == 5
    decreases |ops|
  {
    if ops == [] then []
    else
      var m' := LazyApply(c, m, ops[0]);
      [(LazyAnswer(c, m, ops[0]), Visible(m'.apu))] + LazyTrace(c, m', ops[1..])
  }

  predicate AllInTime(c: Config, m: Machine, ops: seq<Op>)
    requires |m.apu.chEn| == 5
    decreases |ops|
  {
    ops == [] || (InTime(c, m, ops[0]) && AllInTime(c, LazyApply(c, m, ops[0]), ops[1..]))
  }

  /** Skipping ahead shows the CPU what ticking every cycle would, over any run. */
  lemma {:induction false} LazyIsEager(c: Config, m: Machine, s: State, ops: seq<Op>)
    requires Follows(c, m, s) && RunOps(c, s, ops).Some? && |m.apu.chEn| == 5 && AllInTime(c, m, ops)
    ensures LazyTrace(c, m, ops) == EagerTrace(c, s, ops)
    decreases |ops|
  {
    hide Inv, Apply, LazyApply, InTime, Allowed, LazyAnswer, Answer, Tick, TickN, UntilEvent;
    if ops != [] {
      InvApply(c, s, ops[0]);
      StepFollows(c, m, s, ops[0]);
      StepSeen(c, LazyApply(c, m, ops[0]), Apply(c, s, ops[0]));
      LazyIsEager(c, LazyApply(c, m, ops[0]), Apply(c, s, ops[0]), ops[1..]);
    }
  }

  lemma StepSeen(c: Config, m: Machine, s: State)
    requires Follows(c, m, s)
    ensures Visible(m.apu) == Visible(s)
  {
  }

  /** The machine at power-on. */
  function PowerOn(): Machine { Machine(InitState(), 0, 0) }

  lemma PowerOnFollows(c: Config)
    ensures Follows(c, PowerOn(), Reset(c))
  {
    hide Inv, Tick, UntilEvent, Visible;
    InvInit(c);
    Synced(c, InitState(), 0);
  }

  /** From reset. */
  lemma LazyFromReset(c: Config, ops: seq<Op>)
    requires RunOps(c, Reset(c), ops).Some? && AllInTime(c, PowerOn(), ops)
    ensures LazyTrace(c, PowerOn(), ops) == EagerTrace(c, Reset(c), ops)
  {
    hide Inv, RunOps, LazyTrace, EagerTrace, AllInTime, Follows;
    PowerOnFollows(c);
    LazyIsEager(c, PowerOn(), Reset(c), ops);
  }

  // ------------------------------------------------------- the machine, in place

  class Console {
    const unit: Apu2a03
    var now: nat
    var deadline: int

    function Abs(): Machine
      reads this, unit
    {
      Machine(unit.Abs(), now, deadline)
    }

    constructor (c: Config)
      ensures fresh(unit) && unit.c == c && Abs() == PowerOn()
    {
      unit := new Apu2a03(c);
      now, deadline := 0, 0;
    }

    /** Catches up in batches of at most 256 cycles. */
    method CatchUp()
      modifies this`deadline, unit
      ensures Abs() == Sync(unit.c, old(Abs()))
    {
      hide Tick, UntilEvent;
      if unit.cycle >= now { return; }
      while unit.cycle < now
        invariant unit.cycle <= now
        invariant TickN(unit.c, unit.Abs(), now - unit.cycle) == TickN(unit.c, old(unit.Abs()), now - old(unit.cycle))
      {
        var to := if now - unit.cycle > 256 then unit.cycle + 256 else now;
        TickNCompose(unit.c, unit.Abs(), to - unit.cycle, now - to);
        TickNCycle(unit.c, unit.Abs(), to - unit.cycle);
        unit.Run(to);
      }
      deadline := now + UntilEvent(unit.c, unit.Abs());
    }

    method StepCycle()
      requires |unit.chEn| == 5
      modifies this, unit
      ensures Abs() == LazyApply(unit.c, old(Abs()), Cycle)
    {
      hide Sync;
      now := now + 1;
      if now >= deadline { CatchUp(); }
    }

    method WriteRegister(addr: int, v: int)
      requires |unit.chEn| == 5
      modifies this, unit
      ensures Abs() == LazyApply(unit.c, old(Abs()), WriteReg(addr, v))
    {
      hide Write, Tick, UntilEvent;
      TickNKeepsEnables(unit.c, unit.Abs(), now - unit.cycle);
      CatchUp();
      unit.DoWrite(addr, v);
      deadline := 0;
    }

    method ReadStatusRegister() returns (r: int)
      requires |unit.chEn| == 5
      modifies this, unit
      ensures Abs() == LazyApply(unit.c, old(Abs()), ReadStatus)
      ensures r == LazyAnswer(unit.c, old(Abs()), ReadStatus)
    {
      hide StatusByte, AfterRead, Sync;
      CatchUp();
      r := unit.DoRead(0x4015);
      deadline := 0;
    }

    method DeliverByte(b: int)
      requires |unit.chEn| == 5
      modifies this, unit
      ensures Abs() == LazyApply(unit.c, old(Abs()), Deliver(b))
    {
      hide DmcFill;
      unit.DoFill(b);
      deadline := 0;
    }
  }

  lemma {:induction false} TickNCompose(c: Config, s: State, m: nat, n: nat)
    ensures TickN(c, TickN(c, s, m), n) == TickN(c, s, m + n)
    decreases m
  {
    hide Tick;
    if m > 0 { TickNCompose(c, Tick(c, s), m - 1, n); }
  }

  lemma {:induction false} TickNCycle(c: Config, s: State, n: nat)
    ensures TickN(c, s, n).cycle == s.cycle + n
    decreases n
  {
    hide Tick;
    if n > 0 {
      TickParts(c, s);
      TickNCycle(c, Tick(c, s), n - 1);
    }
  }
}
