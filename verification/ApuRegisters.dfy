/** What the 2A03's register accesses mean to the CPU. */
module ApuRegisters {
  import opened Arithmetic
  import opened Runs
  import opened Apu
  import opened ApuLazy

  predicate SameOthers(s: State, t: State) { t.cycle == s.cycle && t.apuClk == s.apuClk }

  /** A write reaches only the unit its address belongs to; $4015 reaches all but the frame counter, and
      an unknown address nothing. */
  lemma WriteReachesOneUnit(c: Config, s: State, addr: int, v: int)
    requires |s.chEn| == 5
    ensures var t := Write(c, s, addr, v);
      && SameOthers(s, t)
      && (addr != 0x4015 ==>
            && t.chEn == s.chEn
            && (!(0x4000 <= addr <= 0x4003) ==> t.p0 == s.p0) && (!(0x4004 <= addr <= 0x4007) ==> t.p1 == s.p1)
            && (!(0x4008 <= addr <= 0x400B) ==> t.tri == s.tri) && (!(0x400C <= addr <= 0x400F) ==> t.noise == s.noise)
            && (!(0x4010 <= addr <= 0x4013) ==> t.dmc == s.dmc))
      && (addr != 0x4017 ==> t.fc == s.fc)
  {
    hide WritePulse, WriteTri, WriteNoise, WriteDmc, DmcStatus, Bit;
  }

  /** The two writes that set a pulse's pitch set all of it, whatever it was, and the second starts the
      note: with the length the table gives if the channel is on, and the envelope from the top. */
  lemma NoteStarts(c: Config, p: Pulse, low: int, high: int, en: bool)
    requires 0 <= low < 256 && 0 <= high < 256
    ensures var q := WritePulse(c, WritePulse(c, p, 2, low, en), 3, high, en);
      && q.timerPeriod == high % 8 * 256 + low && q.seq8 == 0
      && q.len == (if en then LEN_TABLE[high / 8] else p.len) && PulseEnv(q).envDec == 15
  {
    hide EnvClock, PulseEnv, PeriodLow, PeriodHigh;
    PitchSet(p.timerPeriod, low, high);
    var once := WritePulse(c, p, 2, low, en);
    assert once == p.(timerPeriod := PeriodLow(p.timerPeriod, low));
    SecondWrite(c, once, high, en);
    EnvelopeRestarts(WritePulse(c, once, 3, high, en));
  }

  lemma SecondWrite(c: Config, p: Pulse, high: int, en: bool)
    requires 0 <= high < 256
    ensures var q := WritePulse(c, p, 3, high, en);
      && q.timerPeriod == PeriodHigh(p.timerPeriod, high) && q.seq8 == 0 && q.envStart
      && q.len == if en then LEN_TABLE[high / 8] else p.len
  {
    hide PeriodHigh, Bit;
    assert high / 8 % 32 == high / 8;
  }

  lemma PitchSet(p: int, low: int, high: int)
    requires 0 <= low < 256
    ensures PeriodHigh(PeriodLow(p, low), high) == high % 8 * 256 + low
  {
    var k := p / 256 % 8;
    DivUnique(k * 256 + low, 256, k, low);
  }

  lemma EnvelopeRestarts(p: Pulse)
    requires p.envStart
    ensures PulseEnv(p).envDec == 15 && !PulseEnv(p).envStart
  {
  }

  /** Each bit of the status byte says one thing. */
  lemma StatusBits(c: Config, s: State)
    ensures var r := StatusByte(c, s);
      && 0 <= r < 256
      && (Bit(r, 0) <==> s.p0.len > 0) && (Bit(r, 1) <==> s.p1.len > 0)
      && (Bit(r, 2) <==> s.tri.len > 0) && (Bit(r, 3) <==> s.noise.len > 0)
      && (Bit(r, 4) <==> c.dmcEnabled && s.dmc.bytesRem > 0) && !Bit(r, 5)
      && (Bit(r, 6) <==> c.frameIrqEnabled && s.fc.irq) && (Bit(r, 7) <==> c.dmcEnabled && s.dmc.irqFlag)
  {
    hide Bit;
    EightBits(s.p0.len > 0, s.p1.len > 0, s.tri.len > 0, s.noise.len > 0, c.dmcEnabled && s.dmc.bytesRem > 0,
              c.frameIrqEnabled && s.fc.irq, c.dmcEnabled && s.dmc.irqFlag);
  }

  function Weight(b: bool, w: int): int { if b then w else 0 }

  function Place(n: int): int {
    match n case 0 => 1 case 1 => 2 case 2 => 4 case 3 => 8 case 4 => 16 case 5 => 32 case 6 => 64 case _ => 128
  }

  /** Bit n of a number with b there, low below it and high above. */
  lemma OneBit(r: int, n: int, low: int, b: bool, high: int)
    requires 0 <= n < 8 && 0 <= low < Place(n) && r == (Weight(b, 1) + 2 * high) * Place(n) + low
    ensures Bit(r, n) == b
  {
    DivUnique(r, Place(n), Weight(b, 1) + 2 * high, low);
    assert Bit(r, n) == (r / Place(n) % 2 == 1);
  }

  lemma EightBits(b0: bool, b1: bool, b2: bool, b3: bool, b4: bool, b6: bool, b7: bool)
    ensures var r := Weight(b0, 0x01) + Weight(b1, 0x02) + Weight(b2, 0x04) + Weight(b3, 0x08) + Weight(b4, 0x10)
                     + Weight(b6, 0x40) + Weight(b7, 0x80);
      && 0 <= r < 256 && Bit(r, 0) == b0 && Bit(r, 1) == b1 && Bit(r, 2) == b2 && Bit(r, 3) == b3 && Bit(r, 4) == b4
      && !Bit(r, 5) && Bit(r, 6) == b6 && Bit(r, 7) == b7
  {
    hide Bit;
    var low := Weight(b0, 1) + Weight(b1, 2) + Weight(b2, 4) + Weight(b3, 8);
    var high := Weight(b4, 1) + Weight(b6, 4) + Weight(b7, 8);
    var r := low + 16 * high;
    OneBit(r, 0, 0, b0, Weight(b1, 1) + Weight(b2, 2) + Weight(b3, 4) + 8 * high);
    OneBit(r, 1, Weight(b0, 1), b1, Weight(b2, 1) + Weight(b3, 2) + 4 * high);
    OneBit(r, 2, Weight(b0, 1) + Weight(b1, 2), b2, Weight(b3, 1) + 2 * high);
    OneBit(r, 3, Weight(b0, 1) + Weight(b1, 2) + Weight(b2, 4), b3, high);
    OneBit(r, 4, low, b4, Weight(b6, 2) + Weight(b7, 4));
    OneBit(r, 5, low + Weight(b4, 16), false, Weight(b6, 1) + Weight(b7, 2));
    OneBit(r, 6, low + Weight(b4, 16), b6, Weight(b7, 1));
    OneBit(r, 7, low + Weight(b4, 16) + Weight(b6, 64), b7, 0);
  }

  /** A channel switched off reads as silent at once; switching one on changes no length. */
  lemma SwitchedOff(c: Config, s: State, v: int)
    requires |s.chEn| == 5
    ensures var t := Write(c, s, 0x4015, v); var r := StatusByte(c, t);
      && (forall k :: 0 <= k <= 4 && !Bit(v, k) ==> !Bit(r, k))
      && (Bit(v, 0) ==> t.p0 == s.p0) && (Bit(v, 1) ==> t.p1 == s.p1) && (Bit(v, 2) ==> t.tri == s.tri)
      && (Bit(v, 3) ==> t.noise == s.noise) && !Bit(r, 7)
  {
    hide Bit, StatusByte;
    StatusBits(c, Write(c, s, 0x4015, v));
  }

  /** Reading the status clears the frame flag at the next odd cycle, unless the sequence raises it again
      right then. */
  lemma ReadClears(c: Config, s: State)
    requires Inv(c, s) && s.fc.irq
    ensures var n: nat := if s.cycle % 2 == 0 then 1 else 2;
      !TickN(c, AfterRead(s), n).fc.clearPending
      && (TickN(c, AfterRead(s), n).fc.irq ==> RaisesAt(c, TickN(c, AfterRead(s), n - 1).fc))
  {
    hide Tick, Inv, TickFrame, RaisesAt;
    var t := AfterRead(s);
    ReadFrame(s);
    TickParts(c, t);
    TickParts(c, Tick(c, t));
    OddCycleClears(c, t.fc, s.cycle + 1);
    if s.cycle % 2 != 0 { OddCycleClears(c, Tick(c, t).fc, s.cycle + 2); }
    assert TickN(c, t, 0) == t && TickN(c, Tick(c, t), 0) == Tick(c, t) && TickN(c, t, 1) == Tick(c, t);
    assert TickN(c, Tick(c, Tick(c, t)), 0) == Tick(c, Tick(c, t)) && TickN(c, Tick(c, t), 1) == Tick(c, Tick(c, t));
    assert TickN(c, t, 2) == Tick(c, Tick(c, t));
  }

  lemma ReadFrame(s: State)
    requires s.fc.irq
    ensures AfterRead(s).fc.clearPending && AfterRead(s).cycle == s.cycle
  {
  }

  /** The next cycle is one at which the sequence raises the frame flag. */
  predicate RaisesAt(c: Config, f: Frame) {
    !ModeAfter(f) && 29828 <= FrameTime(f) <= 29830 && c.frameIrqEnabled && !f.irqInhibit
  }

  lemma OddCycleClears(c: Config, f: Frame, cycle: nat)
    requires f.clearPending
    ensures cycle % 2 != 0 ==> !TickFrame(c, f, cycle).clearPending && (TickFrame(c, f, cycle).irq ==> RaisesAt(c, f))
    ensures cycle % 2 == 0 ==> TickFrame(c, f, cycle).clearPending
  {
    hide ModeAfter, FrameTime;
  }
}
