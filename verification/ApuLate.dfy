/** What a byte delivered too late does: the CPU can tell, from reset and in every other state. */
module ApuLate {
  import opened Runs
  import opened Apu
  import opened ApuLazy
  import opened ApuMachine

  // ------------------------------------------------------------ runs and their traces

  function LazyRun(c: Config, m: Machine, ops: seq<Op>): (r: Machine)
    requires |m.apu.chEn| == 5
    ensures |r.apu.chEn| == 5
    decreases |ops|
  {
    if ops == [] then m else LazyRun(c, LazyApply(c, m, ops[0]), ops[1..])
  }

  lemma {:induction false} LazyTraceAppend(c: Config, m: Machine, a: seq<Op>, b: seq<Op>)
    requires |m.apu.chEn| == 5
    ensures LazyTrace(c, m, a + b) == LazyTrace(c, m, a) + LazyTrace(c, LazyRun(c, m, a), b)
    ensures LazyRun(c, m, a + b) == LazyRun(c, LazyRun(c, m, a), b) && |LazyTrace(c, m, a)| == |a|
    decreases |a|
  {
    hide LazyApply, LazyAnswer, Visible;
    if a == [] {
      assert a + b == b;
    } else {
      assert (a + b)[1..] == a[1..] + b;
      LazyTraceAppend(c, LazyApply(c, m, a[0]), a[1..], b);
    }
  }

  lemma {:induction false} EagerTraceAppend(c: Config, s: State, a: seq<Op>, b: seq<Op>)
    requires Inv(c, s) && RunOps(c, s, a).Some? && RunOps(c, RunOps(c, s, a).value, b).Some?
    ensures RunOps(c, s, a + b) == RunOps(c, RunOps(c, s, a).value, b)
    ensures EagerTrace(c, s, a + b) == EagerTrace(c, s, a) + EagerTrace(c, RunOps(c, s, a).value, b)
    ensures |EagerTrace(c, s, a)| == |a|
    decreases |a|
  {
    hide Inv, Allowed, Apply, Answer, Visible;
    if a == [] {
      assert a + b == b;
    } else {
      assert (a + b)[1..] == a[1..] + b;
      InvApply(c, s, a[0]);
      EagerTraceAppend(c, Apply(c, s, a[0]), a[1..], b);
    }
  }

  /** Cycles and register accesses only. */
  predicate NoDelivery(ops: seq<Op>) {
    forall i :: 0 <= i < |ops| ==> !ops[i].Deliver? && (ops[i].WriteReg? ==> 0 <= ops[i].v < 256)
  }

  /** Such operations are always possible and always in time. */
  lemma {:induction false} NoDeliveryRuns(c: Config, m: Machine, s: State, ops: seq<Op>)
    requires Follows(c, m, s) && NoDelivery(ops)
    ensures |m.apu.chEn| == 5 && RunOps(c, s, ops).Some? && AllInTime(c, m, ops)
    ensures Follows(c, LazyRun(c, m, ops), RunOps(c, s, ops).value)
    decreases |ops|
  {
    hide Inv, Apply, LazyApply, Tick, TickN, UntilEvent, Visible, NotTaken;
    InvSize(c, m.apu);
    if ops != [] {
      assert Allowed(s, ops[0]) && InTime(c, m, ops[0]);
      StepFollows(c, m, s, ops[0]);
      InvApply(c, s, ops[0]);
      NoDeliveryRuns(c, LazyApply(c, m, ops[0]), Apply(c, s, ops[0]), ops[1..]);
    }
  }

  // -------------------------------------------- telling a taken buffer from a full one

  /** Sample length 1, start, and three cycles. */
  const PROBE: seq<Op> := [WriteReg(0x4013, 0), WriteReg(0x4015, 0x10), Cycle, Cycle, Cycle]

  function Probed(c: Config, s: State): State
    requires |s.chEn| == 5
  {
    WriteKeepsEnables(c, s, 0x4013, 0);
    Write(c, Write(c, s, 0x4013, 0), 0x4015, 0x10)
  }

  /** The lines the probe shows: after the first write, and after each cycle. */
  lemma ProbeTrace(c: Config, s: State)
    requires Inv(c, s)
    ensures |s.chEn| == 5 && RunOps(c, s, PROBE).Some? && |EagerTrace(c, s, PROBE)| == 5
    ensures EagerTrace(c, s, PROBE)[0].1 == Visible(Write(c, s, 0x4013, 0))
    ensures forall k: nat :: 1 <= k <= 3 ==> EagerTrace(c, s, PROBE)[1 + k].1 == Visible(TickN(c, Probed(c, s), k))
  {
    hide Inv, Tick, Write, Visible;
    InvSize(c, s);
    InvWrite(c, s, 0x4013, 0);
    var s1 := Write(c, s, 0x4013, 0);
    InvSize(c, s1);
    InvWrite(c, s1, 0x4015, 0x10);
    var s2 := Probed(c, s);
    InvTick(c, s2);
    var s3 := Tick(c, s2);
    InvTick(c, s3);
    var s4 := Tick(c, s3);
    InvTick(c, s4);
    var s5 := Tick(c, s4);
    TraceStep(c, s, WriteReg(0x4013, 0), PROBE[1..]);
    TraceStep(c, s1, WriteReg(0x4015, 0x10), PROBE[2..]);
    TraceStep(c, s2, Cycle, PROBE[3..]);
    TraceStep(c, s3, Cycle, PROBE[4..]);
    TraceStep(c, s4, Cycle, PROBE[5..]);
    assert PROBE == [PROBE[0]] + PROBE[1..] && PROBE[1..] == [PROBE[1]] + PROBE[2..] && PROBE[2..] == [Cycle] + PROBE[3..];
    assert PROBE[3..] == [Cycle] + PROBE[4..] && PROBE[4..] == [Cycle] + PROBE[5..] && PROBE[5..] == [];
    ThreeTicks(c, s2);
  }

  lemma ThreeTicks(c: Config, s: State)
    ensures TickN(c, s, 1) == Tick(c, s) && TickN(c, s, 2) == Tick(c, Tick(c, s))
    ensures TickN(c, s, 3) == Tick(c, Tick(c, Tick(c, s)))
  {
    hide Tick;
    var s1 := Tick(c, s);
    var s2 := Tick(c, s1);
    assert TickN(c, Tick(c, s2), 0) == Tick(c, s2) && TickN(c, s2, 0) == s2 && TickN(c, s1, 0) == s1;
    assert TickN(c, s2, 1) == Tick(c, s2) && TickN(c, s1, 1) == s2 && TickN(c, s1, 2) == Tick(c, s2);
  }

  /** A run and its trace, one operation off. */
  lemma TraceStep(c: Config, s: State, op: Op, rest: seq<Op>)
    requires Inv(c, s) && Allowed(s, op)
    ensures Inv(c, Apply(c, s, op)) && RunOps(c, s, [op] + rest) == RunOps(c, Apply(c, s, op), rest)
    ensures RunOps(c, s, [op] + rest).Some? ==>
      EagerTrace(c, s, [op] + rest) == [(Answer(c, s, op), Visible(Apply(c, s, op)))] + EagerTrace(c, Apply(c, s, op), rest)
  {
    hide Inv, Apply, Answer, Visible, Allowed;
    InvApply(c, s, op);
    assert ([op] + rest)[1..] == rest;
  }

  /** A channel just started with an empty buffer counts down to its first request, ... */
  predicate Counting(c: Config, d: Dmc, cycle: nat) {
    DmcInv(c, d, cycle) && c.dmcEnabled && c.dmaExternal && d.bufEmpty && d.bytesRem > 0 && d.startDelay > 0
  }

  lemma CountingCycle(c: Config, d: Dmc, cycle: nat)
    requires Counting(c, d, cycle)
    ensures var e := TickDmc(c, d, cycle + 1);
      && (d.startDelay > 1 ==> Counting(c, e, cycle + 1) && e.startDelay == d.startDelay - 1)
      && (e.dmaPending <==> d.startDelay == 1)
  {
    hide DmcTimer, DmcInv;
    DmcKept(c, d, cycle);
    PlayingParts(c, d, cycle);
    CountingParts(c, d, cycle);
    TimerEffect(d, cycle + 1);
  }

  lemma CountingParts(c: Config, d: Dmc, cycle: nat)
    requires Counting(c, d, cycle)
    ensures (cycle + d.startDelay) % 2 == 1 && !d.dmaPending && d.startDelay <= 3
  {
  }

  lemma CountingAsks(c: Config, d: Dmc, cycle: nat)
    requires Counting(c, d, cycle) && 2 <= d.startDelay
    ensures d.startDelay == 2 ==> !DmcN(c, d, cycle, 1).dmaPending && DmcN(c, d, cycle, 2).dmaPending
    ensures d.startDelay == 3 ==>
      !DmcN(c, d, cycle, 1).dmaPending && !DmcN(c, d, cycle, 2).dmaPending && DmcN(c, d, cycle, 3).dmaPending
  {
    hide Counting, TickDmc, DmcN;
    CountingParts(c, d, cycle);
    DmcThree(c, d, cycle);
    var d1 := TickDmc(c, d, cycle + 1);
    CountingCycle(c, d, cycle);
    CountingCycle(c, d1, cycle + 1);
    if d.startDelay == 3 { CountingCycle(c, TickDmc(c, d1, cycle + 2), cycle + 2); }
  }

  lemma PlayingAsks(c: Config, e: Dmc, cycle: nat)
    requires Playing(c, e, cycle)
    ensures DmcN(c, e, cycle, 1).dmaPending ==> (cycle + 1) % 2 == 0
    ensures !DmcN(c, e, cycle, 1).dmaPending && DmcN(c, e, cycle, 2).dmaPending ==> (cycle + 2) % 2 == 0
    ensures !DmcN(c, e, cycle, 1).dmaPending && !DmcN(c, e, cycle, 2).dmaPending && DmcN(c, e, cycle, 3).dmaPending ==>
      (cycle + 3) % 2 == 0
  {
    hide Playing, TickDmc, DmcN, DmcTimer, TakesNow;
    DmcThree(c, e, cycle);
    var e1 := TickDmc(c, e, cycle + 1);
    PlayingOneCycle(c, e, cycle);
    TakesOnEven(e, cycle);
    if !TakesNow(e, cycle) {
      PlayingOneCycle(c, e1, cycle + 1);
      TakesOnEven(e1, cycle + 1);
      if !TakesNow(e1, cycle + 1) {
        var e2 := TickDmc(c, e1, cycle + 2);
        PlayingOneCycle(c, e2, cycle + 2);
        TakesOnEven(e2, cycle + 2);
      }
    }
  }

  lemma TakesOnEven(d: Dmc, cycle: nat)
    ensures TakesNow(d, cycle) ==> (cycle + 1) % 2 == 0
  {
  }

  /** ... on an odd cycle; one with a full buffer asks on an even one. So their requests differ. */
  lemma RequestsDiffer(c: Config, d: Dmc, e: Dmc, cycle: nat) returns (k: nat)
    requires Counting(c, d, cycle) && 2 <= d.startDelay && Playing(c, e, cycle)
    ensures 1 <= k <= 3 && DmcN(c, d, cycle, k).dmaPending != DmcN(c, e, cycle, k).dmaPending
  {
    hide Counting, Playing, TickDmc, DmcN;
    CountingParts(c, d, cycle);
    CountingAsks(c, d, cycle);
    PlayingAsks(c, e, cycle);
    k := if DmcN(c, e, cycle, 1).dmaPending then 1
         else if DmcN(c, d, cycle, 2).dmaPending != DmcN(c, e, cycle, 2).dmaPending then 2 else 3;
  }

  lemma DmcThree(c: Config, d: Dmc, cycle: nat)
    ensures var d1 := TickDmc(c, d, cycle + 1); var d2 := TickDmc(c, d1, cycle + 2); var d3 := TickDmc(c, d2, cycle + 3);
      DmcN(c, d, cycle, 1) == d1 && DmcN(c, d, cycle, 2) == d2 && DmcN(c, d, cycle, 3) == d3
  {
    hide TickDmc;
    var d1 := TickDmc(c, d, cycle + 1);
    var d2 := TickDmc(c, d1, cycle + 2);
    var d3 := TickDmc(c, d2, cycle + 3);
    assert DmcN(c, d3, cycle + 3, 0) == d3 && DmcN(c, d2, cycle + 2, 0) == d2 && DmcN(c, d1, cycle + 1, 0) == d1;
    assert DmcN(c, d2, cycle + 2, 1) == d3 && DmcN(c, d1, cycle + 1, 1) == d2 && DmcN(c, d1, cycle + 1, 2) == d3;
  }

  /** Two units alike but for a buffer that one has taken and the other still holds. */
  predicate TakenOrFull(c: Config, taken: State, full: State) {
    && Inv(c, taken) && Inv(c, full) && c.dmcEnabled && c.dmaExternal && taken.cycle == full.cycle
    && taken.dmc.bytesRem == full.dmc.bytesRem && taken.dmc.bufEmpty && !full.dmc.bufEmpty
    && taken.dmc.startDelay == 0 && full.dmc.startDelay == 0 && !full.dmc.dmaPending
  }

  /** With bytes left the taken one asks at once. */
  lemma AsksAtOnce(c: Config, taken: State, full: State)
    requires TakenOrFull(c, taken, full) && taken.dmc.bytesRem > 0
    ensures |taken.chEn| == 5 && |full.chEn| == 5
    ensures Visible(Write(c, taken, 0x4013, 0)) != Visible(Write(c, full, 0x4013, 0))
  {
    hide FrameInv, PulseInv;
  }

  /** With none left it takes a start to tell. */
  lemma StartTells(c: Config, taken: State, full: State)
    requires TakenOrFull(c, taken, full) && taken.dmc.bytesRem == 0
    ensures |taken.chEn| == 5 && |full.chEn| == 5
    ensures var t, f := Probed(c, taken), Probed(c, full);
      && t.cycle == f.cycle == taken.cycle && Counting(c, t.dmc, t.cycle) && 2 <= t.dmc.startDelay
      && Playing(c, f.dmc, f.cycle)
  {
    hide Inv, DmcInv, Write;
    InvSize(c, taken);
    InvSize(c, full);
    InvWrite(c, taken, 0x4013, 0);
    InvWrite(c, full, 0x4013, 0);
    var t1, f1 := Write(c, taken, 0x4013, 0), Write(c, full, 0x4013, 0);
    InvSize(c, t1);
    InvSize(c, f1);
    InvWrite(c, t1, 0x4015, 0x10);
    InvWrite(c, f1, 0x4015, 0x10);
    LengthWritten(c, taken);
    LengthWritten(c, full);
    StartWritten(c, t1);
    StartWritten(c, f1);
    InvParts(c, Probed(c, taken));
    InvParts(c, Probed(c, full));
  }

  lemma LengthWritten(c: Config, s: State)
    requires |s.chEn| == 5 && c.dmcEnabled
    ensures Write(c, s, 0x4013, 0).cycle == s.cycle && Write(c, s, 0x4013, 0).dmc == s.dmc.(startLen := 1)
  {
  }

  lemma StartWritten(c: Config, s: State)
    requires |s.chEn| == 5 && c.dmcEnabled && s.dmc.bytesRem == 0 && s.dmc.startLen == 1
    ensures var t := Write(c, s, 0x4015, 0x10);
      && t.cycle == s.cycle && t.dmc.bytesRem == 1 && t.dmc.bufEmpty == s.dmc.bufEmpty
      && (s.dmc.bufEmpty ==> 2 <= t.dmc.startDelay <= 3) && (!s.dmc.bufEmpty ==> t.dmc.startDelay == s.dmc.startDelay)
  {
  }

  /** The probe tells the two apart. */
  lemma ProbeTells(c: Config, taken: State, full: State)
    requires TakenOrFull(c, taken, full)
    ensures RunOps(c, taken, PROBE).Some? && RunOps(c, full, PROBE).Some?
    ensures EagerTrace(c, taken, PROBE) != EagerTrace(c, full, PROBE)
  {
    hide Inv, RunOps, EagerTrace, Write, Probed, Tick, TickDmc, Counting, Playing;
    ProbeTrace(c, taken);
    ProbeTrace(c, full);
    if taken.dmc.bytesRem > 0 {
      AsksAtOnce(c, taken, full);
    } else {
      BytesNotNegative(c, taken);
      StartTells(c, taken, full);
      var t, f := Probed(c, taken), Probed(c, full);
      var k := RequestsDiffer(c, t.dmc, f.dmc, t.cycle);
      TickNIgnoresDmc(c, t, t.dmc, k);
      TickNIgnoresDmc(c, f, f.dmc, k);
      assert EagerTrace(c, taken, PROBE)[1 + k].1 != EagerTrace(c, full, PROBE)[1 + k].1;
    }
  }

  lemma BytesNotNegative(c: Config, s: State)
    requires Inv(c, s)
    ensures s.dmc.bytesRem >= 0
  {
    hide FrameInv, PulseInv;
  }
  // --------------------------------------------------------- the exact condition

  /** A byte delivered too late has been taken by the time the unit is brought up to date. */
  lemma {:induction false} LateIsTaken(c: Config, d: Dmc, b: int, cycle: nat, n: nat)
    requires Waiting(c, d, cycle) && !NotTaken(d, cycle, n)
    ensures DmcN(c, DmcFill(d, b), cycle, n).bufEmpty
    decreases n
  {
    hide Waiting, TickDmc, DmcFill, TakesNow, DmcTimer;
    WaitingParts(c, d, cycle);
    WaitingCycle(c, d, cycle);
    FillThenCycle(c, d, b, cycle);
    if TakesNow(d, cycle) {
      EmptyStaysEmpty(c, TickDmc(c, DmcFill(d, b), cycle + 1), cycle + 1, n - 1);
    } else {
      LateIsTaken(c, TickDmc(c, d, cycle + 1), b, cycle + 1, n - 1);
    }
  }

  /** Without deliveries the count stays, and so does a start that is over. */
  lemma {:induction false} CountStays(c: Config, d: Dmc, cycle: nat, n: nat)
    requires c.dmaExternal && d.startDelay == 0
    ensures DmcN(c, d, cycle, n).bytesRem == d.bytesRem && DmcN(c, d, cycle, n).startDelay == 0
    decreases n
  {
    hide TickDmc;
    if n > 0 {
      ReaderKeepsCount(c, d, cycle + 1);
      StartStaysOver(c, d, cycle + 1);
      CountStays(c, TickDmc(c, d, cycle + 1), cycle + 1, n - 1);
    }
  }

  lemma StartStaysOver(c: Config, d: Dmc, cycle: nat)
    requires c.dmaExternal && d.startDelay == 0
    ensures TickDmc(c, d, cycle).startDelay == 0
  {
    hide DmcTimer;
    TimerKeepsReader(d, cycle);
  }

  lemma FillCounts(d: Dmc, e: Dmc, b: int)
    requires SameReader(d, e) && d.bytesRem > 0
    ensures DmcFill(d, b).bytesRem == DmcFill(e, b).bytesRem && !DmcFill(e, b).bufEmpty && !DmcFill(e, b).dmaPending
    ensures DmcFill(d, b).startDelay == DmcFill(e, b).startDelay == d.startDelay
  {
  }

  /** The two units after a late delivery. */
  lemma LateUnits(c: Config, m: Machine, s: State, b: int)
    requires Follows(c, m, s) && c.dmaExternal && s.dmc.dmaPending
    requires !NotTaken(m.apu.dmc, m.apu.cycle, m.now - m.apu.cycle)
    ensures TakenOrFull(c, TickN(c, Fill(m.apu, b), m.now - m.apu.cycle), Fill(s, b))
    ensures Inv(c, Fill(m.apu, b))
  {
    hide Inv, Tick, TickDmc, UntilEvent, DmcFill, NotTaken, Waiting, SameReader;
    var n, d := m.now - m.apu.cycle, m.apu.dmc;
    PendingIsWaiting(c, m.apu);
    WaitingParts(c, d, m.apu.cycle);
    InvFill(c, m.apu, b);
    InvFill(c, s, b);
    TickNInv(c, Fill(m.apu, b), n);
    TickNIgnoresDmc(c, m.apu, d, n);
    TickNIgnoresDmc(c, Fill(m.apu, b), DmcFill(d, b), n);
    LateIsTaken(c, d, b, m.apu.cycle, n);
    WaitingReader(c, d, m.apu.cycle, n);
    FillCounts(d, s.dmc, b);
    CountStays(c, DmcFill(d, b), m.apu.cycle, n);
    EnabledByWaiting(c, d, m.apu.cycle);
  }

  lemma EnabledByWaiting(c: Config, d: Dmc, cycle: nat)
    requires Waiting(c, d, cycle)
    ensures c.dmcEnabled
  {
  }

  /** A stale unit that is written to answers like one that was ticked all along from where it was. */
  lemma WrittenCatchesUp(c: Config, m: Machine, s: State, addr: int, v: int, rest: seq<Op>)
    requires Inv(c, m.apu) && Inv(c, s) && m.apu.cycle <= m.now == s.cycle && TickN(c, m.apu, m.now - m.apu.cycle) == s
    requires 0 <= v < 256 && NoDelivery(rest)
    ensures |m.apu.chEn| == 5 && RunOps(c, s, [WriteReg(addr, v)] + rest).Some?
    ensures LazyTrace(c, m, [WriteReg(addr, v)] + rest) == EagerTrace(c, s, [WriteReg(addr, v)] + rest)
    ensures AllInTime(c, m, [WriteReg(addr, v)] + rest)
  {
    hide Inv, Tick, UntilEvent, Write, Visible, NotTaken;
    InvSize(c, m.apu);
    InvSize(c, s);
    CaughtUp(c, m, s);
    InvWrite(c, s, addr, v);
    AccessKeepsCycle(c, s, WriteReg(addr, v));
    var m1, s1 := Machine(Write(c, s, addr, v), m.now, 0), Write(c, s, addr, v);
    Synced(c, s1, 0);
    NoDeliveryRuns(c, m1, s1, rest);
    LazyIsEager(c, m1, s1, rest);
    TraceStep(c, s, WriteReg(addr, v), rest);
    assert ([WriteReg(addr, v)] + rest)[1..] == rest;
  }

  lemma CaughtUp(c: Config, m: Machine, s: State)
    requires m.apu.cycle <= m.now && TickN(c, m.apu, m.now - m.apu.cycle) == s
    ensures Sync(c, m).apu == s && Sync(c, m).now == m.now
  {
    hide Tick, UntilEvent;
    if m.apu.cycle == m.now { assert TickN(c, m.apu, 0) == m.apu; }
  }

  /** Whatever the CPU does next (delivering in time), it learns the same from both machines. */
  ghost predicate SameToCpu(c: Config, m: Machine, s: State)
    requires |m.apu.chEn| == 5 && Inv(c, s)
  {
    forall ops :: RunOps(c, s, ops).Some? && AllInTime(c, m, ops) ==> LazyTrace(c, m, ops) == EagerTrace(c, s, ops)
  }

  /** After a delivery to a stale unit the CPU can never tell, if and only if it came in time. */
  lemma DeliverySeenExactly(c: Config, m: Machine, s: State, b: int)
    requires Follows(c, m, s) && c.dmaExternal && s.dmc.dmaPending
    ensures |m.apu.chEn| == 5 && Inv(c, Fill(s, b))
    ensures SameToCpu(c, LazyApply(c, m, Deliver(b)), Fill(s, b))
       <==> NotTaken(m.apu.dmc, m.apu.cycle, m.now - m.apu.cycle)
  {
    hide Inv, Tick, UntilEvent, Fill, NotTaken, Follows, RunOps, AllInTime, LazyTrace, EagerTrace, TickN, TakenOrFull;
    FollowsSizes(c, m, s);
    InvFill(c, s, b);
    var m1, s1 := LazyApply(c, m, Deliver(b)), Fill(s, b);
    if NotTaken(m.apu.dmc, m.apu.cycle, m.now - m.apu.cycle) {
      DeliverFollows(c, m, s, b);
      forall ops | RunOps(c, s1, ops).Some? && AllInTime(c, m1, ops) ensures LazyTrace(c, m1, ops) == EagerTrace(c, s1, ops) {
        LazyIsEager(c, m1, s1, ops);
      }
    } else {
      LateUnits(c, m, s, b);
      var taken := TickN(c, Fill(m.apu, b), m.now - m.apu.cycle);
      FillCycle(m.apu, b);
      FillCycle(s, b);
      LateInv(c, taken, s1);
      WrittenCatchesUp(c, m1, taken, 0x4013, 0, PROBE[1..]);
      assert PROBE == [WriteReg(0x4013, 0)] + PROBE[1..];
      ProbeTells(c, taken, s1);
      assert LazyTrace(c, m1, PROBE) != EagerTrace(c, s1, PROBE);
    }
  }

  lemma FollowsSizes(c: Config, m: Machine, s: State)
    requires Follows(c, m, s)
    ensures |m.apu.chEn| == 5 && Inv(c, m.apu) && Inv(c, s) && m.apu.cycle <= m.now == s.cycle
    ensures m.apu.dmc.dmaPending == s.dmc.dmaPending
  {
    hide Inv, Tick, TickN, UntilEvent;
    InvSize(c, m.apu);
  }

  lemma LateInv(c: Config, taken: State, full: State)
    requires TakenOrFull(c, taken, full)
    ensures Inv(c, taken) && taken.cycle == full.cycle
  {
    hide Inv;
  }
}
