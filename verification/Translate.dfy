/** Translated blocks: decoding a run of instructions once and executing it from the cache
    (cpu/chip8/chip8_cpu.c, with the run loop of machine_chip8.c). */
module Translate {
  import opened Runs
  import opened Chip8
  import TbCache

  const MAX_INSNS := 64

  type Insns = seq<Insn>

  /** The decoded block at pc: up to room instructions, ending early after a terminal one
      or at the end of memory. */
  function BlockFrom(mem: Memory, pc: nat, room: nat): Insns
    decreases room
  {
    if room == 0 || pc + 1 >= 4096 then []
    else
      var ins := Decode(FetchAt(mem, pc));
      if IsTerminal(ins.kind) then [ins] else [ins] + BlockFrom(mem, pc + 2, room - 1)
  }

  /** What makes a list of instructions a block decoded at pc: each comes from its own two bytes
      and only the last may be terminal. */
  predicate DecodedAt(insns: Insns, mem: Memory, pc: nat) {
    && pc + 2 * |insns| <= 4096
    && (forall k {:trigger insns[k]} :: 0 <= k < |insns| ==> insns[k] == Decode(FetchAt(mem, pc + 2 * k)))
    && (forall k :: 0 <= k < |insns| - 1 ==> !IsTerminal(insns[k].kind))
  }

  lemma {:induction false} BlockIsDecoded(mem: Memory, pc: nat, room: nat)
    requires pc < 4096
    ensures DecodedAt(BlockFrom(mem, pc, room), mem, pc)
    ensures |BlockFrom(mem, pc, room)| <= room
    decreases room
  {
    hide Decode, IsTerminal, DecodedAt;
    if room == 0 || pc + 1 >= 4096 { NothingDecoded(mem, pc); }
    if room > 0 && pc + 1 < 4096 {
      var ins := Decode(FetchAt(mem, pc));
      if !IsTerminal(ins.kind) && pc + 2 < 4096 {
        BlockIsDecoded(mem, pc + 2, room - 1);
        var rest := BlockFrom(mem, pc + 2, room - 1);
        PrependDecoded(ins, rest, mem, pc);
      } else {
        DecodedAlone(ins, mem, pc);
        assert !IsTerminal(ins.kind) ==> BlockFrom(mem, pc + 2, room - 1) == [] && [ins] + [] == [ins];
      }
    }
  }

  lemma NothingDecoded(mem: Memory, pc: nat)
    requires pc <= 4096
    ensures DecodedAt([], mem, pc)
  {
  }

  lemma DecodedAlone(ins: Insn, mem: Memory, pc: nat)
    requires pc + 1 < 4096 && ins == Decode(FetchAt(mem, pc))
    ensures DecodedAt([ins], mem, pc)
  {
    hide Decode, IsTerminal;
  }

  lemma PrependDecoded(ins: Insn, rest: Insns, mem: Memory, pc: nat)
    requires pc + 2 < 4096 && ins == Decode(FetchAt(mem, pc)) && !IsTerminal(ins.kind) && DecodedAt(rest, mem, pc + 2)
    ensures DecodedAt([ins] + rest, mem, pc)
  {
    hide Decode, IsTerminal;
    forall k | 0 <= k < |rest| + 1 ensures ([ins] + rest)[k] == Decode(FetchAt(mem, pc + 2 * k)) {
      if k > 0 { assert rest[k - 1] == Decode(FetchAt(mem, pc + 2 + 2 * (k - 1))); }
    }
  }

  /** Executing a block; None on an unchecked access.  A key wait stops it. */
  function ExecBlock(insns: Insns, m: Machine): Option<Machine> {
    if insns == [] then Some(m)
    else if !ExecOk(insns[0], m) then None
    else
      var t := Exec(insns[0], m);
      if t.d.waitKey then Some(t) else ExecBlock(insns[1..], t)
  }

  predicate SameBytes(a: Memory, b: Memory, lo: int, hi: int) {
    forall i :: 0 <= i < 4096 && lo <= i < hi ==> a[i] == b[i]
  }

  /** No instruction of the block changes a byte of a later one. */
  predicate LeavesItselfAlone(insns: Insns, m: Machine) {
    insns != [] && ExecOk(insns[0], m) ==>
      var t := Exec(insns[0], m);
      && SameBytes(m.d.mem, t.d.mem, m.pc + 2, m.pc + 2 * |insns|)
      && LeavesItselfAlone(insns[1..], t)
  }

  /** A non-terminal instruction falls through and starts no key wait. */
  lemma NonTerminalFallsThrough(ins: Insn, m: Machine)
    requires ExecOk(ins, m) && !IsTerminal(ins.kind)
    ensures Exec(ins, m).pc == (m.pc + 2) % 65536
    ensures Exec(ins, m).d.waitKey == m.d.waitKey
  {
  }

  lemma FirstInsn(insns: Insns, mem: Memory, m: Machine)
    requires insns != [] && DecodedAt(insns, mem, m.pc) && m.pc + 1 < 4096
    requires mem[m.pc] == m.d.mem[m.pc] && mem[m.pc + 1] == m.d.mem[m.pc + 1]
    ensures insns[0] == Decode(FetchAt(m.d.mem, m.pc)) && (|insns| > 1 ==> !IsTerminal(insns[0].kind))
    ensures Step(m) == if ExecOk(insns[0], m) then Some(Exec(insns[0], m)) else None
  {
    hide Decode, IsTerminal, Exec, ExecOk;
    assert insns[0] == Decode(FetchAt(mem, m.pc + 2 * 0));
  }

  lemma DecodedRest(insns: Insns, mem: Memory, pc: nat)
    requires |insns| > 1 && DecodedAt(insns, mem, pc)
    ensures DecodedAt(insns[1..], mem, pc + 2) && (pc + 2) % 65536 == pc + 2
  {
    hide Decode, IsTerminal;
    forall k | 0 <= k < |insns| - 1 ensures insns[1..][k] == Decode(FetchAt(mem, pc + 2 + 2 * k)) {
      assert insns[k + 1] == Decode(FetchAt(mem, pc + 2 * (k + 1)));
    }
  }

  lemma {:induction false} StillDecoded(insns: Insns, a: Memory, b: Memory, pc: nat)
    requires DecodedAt(insns, a, pc) && SameBytes(a, b, pc, pc + 2 * |insns|)
    ensures DecodedAt(insns, b, pc)
  {
    hide Decode, IsTerminal;
    forall k | 0 <= k < |insns| ensures insns[k] == Decode(FetchAt(b, pc + 2 * k)) {
      assert insns[k] == Decode(FetchAt(a, pc + 2 * k));
    }
  }

  lemma {:induction false} LeavesRest(insns: Insns, m: Machine)
    requires insns != [] && ExecOk(insns[0], m) && LeavesItselfAlone(insns, m)
    ensures LeavesItselfAlone(insns[1..], Exec(insns[0], m))
    ensures SameBytes(m.d.mem, Exec(insns[0], m).d.mem, m.pc + 2, m.pc + 2 * |insns|)
  {
    hide Exec, ExecOk, SameBytes;
  }

  /** A translated block does what its instructions, fetched and decoded one at a time, do. */
  lemma {:induction false} BlockIsSteps(insns: Insns, m: Machine)
    requires DecodedAt(insns, m.d.mem, m.pc) && !m.d.waitKey
    requires LeavesItselfAlone(insns, m)
    requires ExecBlock(insns, m).Some?
    ensures Steps(m, |insns|) == ExecBlock(insns, m)
    decreases |insns|
  {
    hide Decode, IsTerminal, Exec, ExecOk, DecodedAt, LeavesItselfAlone, SameBytes, Step;
    if insns != [] {
      var t := Exec(insns[0], m);
      BlockRoom(insns, m.d.mem, m.pc);
      FirstInsn(insns, m.d.mem, m);
      LeavesRest(insns, m);
      if |insns| > 1 {
        NonTerminalFallsThrough(insns[0], m);
        DecodedRest(insns, m.d.mem, m.pc);
        StillDecoded(insns[1..], m.d.mem, t.d.mem, m.pc + 2);
        BlockIsSteps(insns[1..], t);
      } else {
        assert insns[1..] == [];
      }
    }
  }

  // ------------------------------------------------------- blocks that store into themselves

  /** The states a block goes through, and those single stepping goes through. */
  function BlockTrace(insns: Insns, m: Machine): seq<Machine> {
    if insns == [] || !ExecOk(insns[0], m) then [] else [Exec(insns[0], m)] + BlockTrace(insns[1..], Exec(insns[0], m))
  }

  function StepTrace(m: Machine, k: nat): seq<Machine>
    decreases k
  {
    if k == 0 then [] else match Step(m) { case None => [] case Some(t) => [t] + StepTrace(t, k - 1) }
  }

  /** In this state the old instruction does what the new one does. */
  predicate ActsAlike(old_: Insn, new_: Insn, m: Machine)
    requires ExecOk(old_, m)
  {
    ExecOk(new_, m) && Exec(new_, m) == Exec(old_, m)
  }

  /** Wherever the block gets to bytes that are not those it was decoded from, the instruction it still
      has acts like the one that stands there. */
  predicate ChangedActAlike(insns: Insns, mem: Memory, m: Machine) {
    insns != [] && ExecOk(insns[0], m) && m.pc + 1 < 4096 ==>
      && (SameBytes(mem, m.d.mem, m.pc, m.pc + 2) || ActsAlike(insns[0], Decode(FetchAt(m.d.mem, m.pc)), m))
      && ChangedActAlike(insns[1..], mem, Exec(insns[0], m))
  }

  /** One instruction of a block, against stepping: the same if and only if its bytes are or it acts the same. */
  lemma OneAgainstStep(insns: Insns, mem: Memory, m: Machine)
    requires insns != [] && DecodedAt(insns, mem, m.pc) && ExecOk(insns[0], m)
    ensures m.pc + 1 < 4096
    ensures Step(m) == Some(Exec(insns[0], m)) <==>
      SameBytes(mem, m.d.mem, m.pc, m.pc + 2) || ActsAlike(insns[0], Decode(FetchAt(m.d.mem, m.pc)), m)
  {
    hide Decode, IsTerminal, Exec, ExecOk, DecodedAt;
    BlockRoom(insns, mem, m.pc);
    if SameBytes(mem, m.d.mem, m.pc, m.pc + 2) {
      assert mem[m.pc] == m.d.mem[m.pc] && mem[m.pc + 1] == m.d.mem[m.pc + 1];
      FirstInsn(insns, mem, m);
    }
  }

  /** Block and single stepping go through the same states if and only if that holds: a block that stores
      into itself is right exactly when its old instructions happen to act like the new ones. */
  lemma {:induction false} BlockTraceExactly(insns: Insns, mem: Memory, m: Machine)
    requires DecodedAt(insns, mem, m.pc) && !m.d.waitKey && ExecBlock(insns, m).Some?
    ensures BlockTrace(insns, m) == StepTrace(m, |insns|) <==> ChangedActAlike(insns, mem, m)
    decreases |insns|
  {
    hide Decode, IsTerminal, Exec, ExecOk, DecodedAt, SameBytes, Step, ActsAlike;
    if insns != [] {
      var t, rest := Exec(insns[0], m), insns[1..];
      OneAgainstStep(insns, mem, m);
      if |insns| > 1 {
        FirstInsn(insns, mem, m.(d := m.d.(mem := mem)));
        NonTerminalFallsThrough(insns[0], m);
        DecodedRest(insns, mem, m.pc);
        BlockTraceExactly(rest, mem, t);
      } else {
        assert rest == [];
      }
      if Step(m).Some? { FirstAndRest(t, BlockTrace(rest, t), Step(m).value, StepTrace(Step(m).value, |rest|)); }
    }
  }

  lemma FirstAndRest(x: Machine, xs: seq<Machine>, y: Machine, ys: seq<Machine>)
    ensures [x] + xs == [y] + ys <==> x == y && xs == ys
  {
    if [x] + xs == [y] + ys {
      assert ([x] + xs)[0] == ([y] + ys)[0];
      assert xs == ([x] + xs)[1..] == ([y] + ys)[1..] == ys;
    }
  }

  lemma BlockRoom(insns: Insns, mem: Memory, pc: nat)
    requires insns != [] && DecodedAt(insns, mem, pc)
    ensures pc + 1 < 4096
  {
  }

  /** 0x200: save v0 to 0x202; 0x202: v0 := 5, which that store turns into v1 := 5; 0x204: jump 0x200. */
  function SelfModifying(): Machine {
    var mem: Memory := seq(4096, i => 0)[0x200 := 0xF0][0x201 := 0x55][0x202 := 0x60][0x203 := 5][0x204 := 0x12];
    var V: Regs := seq(16, i => 0)[0 := 0x61];
    Machine(0x200, 0, seq(16, i => 0),
            Data(V, 0x202, 0, 0, mem, seq(2048, i => false), false, seq(16, i => false), false, 0, 1))
  }

  function SelfModifyingState(): Machine {
    SelfModifyingDecodes();
    Exec(Decode(0xF055), SelfModifying())
  }

  lemma SelfModifyingBlock()
    ensures var m := SelfModifying();
      BlockFrom(m.d.mem, 0x200, MAX_INSNS) == [Decode(0xF055), Decode(0x6005), Decode(0x1200)]
  {
    hide Decode;
    SelfModifyingDecodes();
    var mem := SelfModifying().d.mem;
    var i0, i1, i2 := Decode(0xF055), Decode(0x6005), Decode(0x1200);
    assert FetchAt(mem, 0x200) == 0xF055 && FetchAt(mem, 0x202) == 0x6005 && FetchAt(mem, 0x204) == 0x1200;
    assert BlockFrom(mem, 0x204, 62) == [i2];
    assert BlockFrom(mem, 0x202, 63) == [i1, i2];
  }

  lemma SelfModifyingDecodes()
    ensures Decode(0xF055) == Insn(LdIVx, 0, 5, 5, 0x55, 0x055)
    ensures Decode(0x6005) == Insn(LdVxKk, 0, 0, 5, 5, 0x005)
    ensures Decode(0x6105) == Insn(LdVxKk, 1, 0, 5, 5, 0x105)
    ensures Decode(0x1200) == Insn(JpNnn, 2, 0, 0, 0, 0x200)
  {
  }

  lemma SelfModifyingFirst(m1: Machine)
    requires m1 == SelfModifyingState()
    ensures SelfModifying().pc == 0x200
    ensures Step(SelfModifying()) == Some(m1)
    ensures m1.pc == 0x202 && !m1.d.waitKey && m1.d.V[0] == 0x61
    ensures FetchAt(m1.d.mem, 0x202) == 0x6105 && FetchAt(m1.d.mem, 0x204) == 0x1200
  {
    hide Decode;
    SelfModifyingDecodes();
    var m := SelfModifying();
    assert FetchAt(m.d.mem, 0x200) == 0xF055;
    assert m1.d.mem[0x202] == 0x61 && m1.d.mem[0x203] == 5 && m1.d.mem[0x204] == 0x12 && m1.d.mem[0x205] == 0;
  }

  lemma ExecThree(m: Machine, i0: Insn, i1: Insn, i2: Insn)
    requires ExecOk(i0, m) && !Exec(i0, m).d.waitKey
    requires ExecOk(i1, Exec(i0, m)) && !Exec(i1, Exec(i0, m)).d.waitKey
    requires ExecOk(i2, Exec(i1, Exec(i0, m)))
    ensures ExecBlock([i0, i1, i2], m) == Some(Exec(i2, Exec(i1, Exec(i0, m))))
  {
    hide Exec, ExecOk;
    var m1 := Exec(i0, m);
    var m2 := Exec(i1, m1);
    assert [i0, i1, i2][1..] == [i1, i2] && [i1, i2][1..] == [i2];
    assert ExecBlock([i2], m2) == Some(Exec(i2, m2));
    assert ExecBlock([i1, i2], m1) == Some(Exec(i2, m2));
  }

  /** A store into the rest of its own block is not seen: the block runs the old bytes,
      single-stepping the new ones. */
  lemma SelfModifyingBlockDiffers()
    ensures var m := SelfModifying(); var insns := BlockFrom(m.d.mem, m.pc, MAX_INSNS);
            ExecBlock(insns, m).Some? && Steps(m, |insns|) != ExecBlock(insns, m)
  {
    hide BlockFrom, FetchAt, Decode, ExecBlock, SelfModifying, Steps, Exec;
    SelfModifyingDecodes();
    SelfModifyingBlock();
    var m := SelfModifying();
    var i0, i1, i2 := Decode(0xF055), Decode(0x6005), Decode(0x1200);
    var m1 := SelfModifyingState();
    SelfModifyingFirst(m1);
    var m2 := Exec(Decode(0x6105), m1);
    SelfModifyingSecond(m1);
    JumpKeeps(i2, Exec(i1, m1));
    JumpKeeps(i2, m2);
    ExecThree(m, i0, i1, i2);
    SelfModifyingSteps(m, m1, m2, i2);
  }

  /** The old second instruction and the new one, executed. */
  lemma SelfModifyingSecond(m1: Machine)
    requires m1.pc == 0x202 && !m1.d.waitKey && m1.d.V[0] == 0x61
    ensures var c1, m2 := Exec(Decode(0x6005), m1), Exec(Decode(0x6105), m1);
      && c1.d.V[0] == 5 && !c1.d.waitKey && m2.d.V[0] == 0x61 && m2.pc == 0x204 && m2.d.mem == m1.d.mem && !m2.d.waitKey
  {
    hide Decode, MemoryData, OtherData;
    SelfModifyingDecodes();
  }

  lemma JumpKeeps(ins: Insn, m: Machine)
    requires ins.kind == JpNnn
    ensures ExecOk(ins, m) && Exec(ins, m).d == m.d
  {
    hide MemoryData, AluRegs;
  }

  lemma SelfModifyingSteps(m: Machine, m1: Machine, m2: Machine, i2: Insn)
    requires Step(m) == Some(m1) && m1.pc == 0x202 && FetchAt(m1.d.mem, 0x202) == 0x6105
    requires m2 == Exec(Decode(0x6105), m1) && m2.pc == 0x204
    requires FetchAt(m2.d.mem, 0x204) == 0x1200 && i2 == Decode(0x1200)
    ensures Steps(m, 3) == Some(Exec(i2, m2))
  {
    hide Exec, FetchAt, Decode;
    SelfModifyingDecodes();
    assert Iterate(Step, Exec(i2, m2), 0) == Some(Exec(i2, m2));
    assert Step(m2) == Some(Exec(i2, m2));
    assert Iterate(Step, m2, 1) == Some(Exec(i2, m2));
    assert Step(m1) == Some(m2);
    assert Iterate(Step, m1, 2) == Some(Exec(i2, m2));
  }

  // ---------------------------------------------------- running from the cache

  type Log = seq<TbCache.Block<Insns>>

  /** The cache, as its insertions since the last flush, and the machine. */
  datatype Emu = Emu(log: Log, m: Machine)

  function MakeBlock(mem: Memory, pc: nat): TbCache.Block<Insns> {
    var insns := BlockFrom(mem, pc, MAX_INSNS);
    TbCache.Block(pc, 2 * |insns|, |insns|, insns)
  }

  /** Look the block at PC up, translating it on a miss. */
  function WithBlock(e: Emu): Log {
    if TbCache.Latest(e.log, e.m.pc).Some? then e.log else e.log + [MakeBlock(e.m.d.mem, e.m.pc)]
  }

  function CurrentInsns(e: Emu): Insns {
    match TbCache.Latest(WithBlock(e), e.m.pc) case None => [] case Some(b) => b.insns
  }

  /** One turn of the run loop, which is not entered while a key is awaited. */
  function RunBlock(e: Emu): Option<Emu> {
    if e.m.d.waitKey then None
    else match ExecBlock(CurrentInsns(e), e.m)
      case None => None
      case Some(t) => Some(Emu(WithBlock(e), t))
  }

  /** Instructions executed by k turns of the run loop. */
  function InsnsRun(e: Emu, k: nat): nat
    decreases k
  {
    if k == 0 then 0
    else match RunBlock(e)
      case None => 0
      case Some(t) => |CurrentInsns(e)| + InsnsRun(t, k - 1)
  }

  /** Every cached block still is what its bytes decode to. */
  ghost predicate Coherent(log: Log, mem: Memory) {
    forall pc: nat :: match TbCache.Latest(log, pc)
      case None => true
      case Some(b) => b.insns == BlockFrom(mem, pc, MAX_INSNS)
  }

  /** The bytes of all cached blocks are the same in both memories. */
  ghost predicate CachedBytesKept(log: Log, a: Memory, b: Memory) {
    forall pc: nat :: match TbCache.Latest(log, pc)
      case None => true
      case Some(blk) => SameBytes(a, b, pc, pc + 2 * |blk.insns|)
  }

  /** No turn stores into the rest of its own block or into any cached block. */
  ghost predicate NoCodeStores(e: Emu, k: nat)
    decreases k
  {
    k > 0 ==> match RunBlock(e)
      case None => true
      case Some(t) =>
        && LeavesItselfAlone(CurrentInsns(e), e.m)
        && CachedBytesKept(t.log, e.m.d.mem, t.m.d.mem)
        && NoCodeStores(t, k - 1)
  }

  /** A block depends on its own bytes only. */
  lemma {:induction false} BlockDependsOnItsBytes(a: Memory, b: Memory, pc: nat, room: nat)
    requires SameBytes(a, b, pc, pc + 2 * |BlockFrom(a, pc, room)|)
    ensures BlockFrom(a, pc, room) == BlockFrom(b, pc, room)
    decreases room
  {
    hide Decode, IsTerminal;
    if room > 0 && pc + 1 < 4096 {
      var ins := Decode(FetchAt(a, pc));
      assert |BlockFrom(a, pc, room)| >= 1;
      assert a[pc] == b[pc] && a[pc + 1] == b[pc + 1];
      assert FetchAt(a, pc) == FetchAt(b, pc);
      if !IsTerminal(ins.kind) {
        assert BlockFrom(a, pc, room) == [ins] + BlockFrom(a, pc + 2, room - 1);
        BlockDependsOnItsBytes(a, b, pc + 2, room - 1);
      }
    }
  }

  lemma CoherentKept(log: Log, a: Memory, b: Memory)
    requires Coherent(log, a) && CachedBytesKept(log, a, b)
    ensures Coherent(log, b)
  {
    hide BlockFrom, SameBytes;
    forall pc: nat | TbCache.Latest(log, pc).Some?
      ensures TbCache.Latest(log, pc).value.insns == BlockFrom(b, pc, MAX_INSNS)
    {
      assert SameBytes(a, b, pc, pc + 2 * |TbCache.Latest(log, pc).value.insns|);
      BlockDependsOnItsBytes(a, b, pc, MAX_INSNS);
    }
  }

  lemma LookupKeepsCoherence(e: Emu)
    requires Coherent(e.log, e.m.d.mem)
    ensures Coherent(WithBlock(e), e.m.d.mem)
    ensures CurrentInsns(e) == BlockFrom(e.m.d.mem, e.m.pc, MAX_INSNS)
  {
    hide BlockFrom;
    var log := WithBlock(e);
    if TbCache.Latest(e.log, e.m.pc).None? {
      assert log[..|log| - 1] == e.log;
      forall pc: nat ensures TbCache.Latest(log, pc) ==
        if pc == e.m.pc then Some(MakeBlock(e.m.d.mem, pc)) else TbCache.Latest(e.log, pc)
      {
      }
    }
  }

  /** The cached run loop, however often blocks are reused, is fetch-decode-execute. */
  lemma {:induction false} CachedRunIsSteps(e: Emu, k: nat)
    requires Coherent(e.log, e.m.d.mem) && NoCodeStores(e, k)
    requires Iterate(RunBlock, e, k).Some?
    ensures Steps(e.m, InsnsRun(e, k)) == Some(Iterate(RunBlock, e, k).value.m)
    ensures Coherent(Iterate(RunBlock, e, k).value.log, Iterate(RunBlock, e, k).value.m.d.mem)
    decreases k
  {
    hide Step;
    hide ExecBlock, BlockFrom, LeavesItselfAlone, Coherent, CachedBytesKept, WithBlock, CurrentInsns, DecodedAt;
    if k > 0 {
      var t := RunBlock(e).value;
      LookupKeepsCoherence(e);
      var insns := CurrentInsns(e);
      CoherentKept(t.log, e.m.d.mem, t.m.d.mem);
      CachedRunIsSteps(t, k - 1);
      assert Steps(e.m, |insns|) == Some(t.m) by { OneBlockIsSteps(e); }
      IterateCompose(Step, e.m, |insns|, InsnsRun(t, k - 1));
    }
  }

  lemma OneBlockIsSteps(e: Emu)
    requires !e.m.d.waitKey && LeavesItselfAlone(CurrentInsns(e), e.m)
    requires CurrentInsns(e) == BlockFrom(e.m.d.mem, e.m.pc, MAX_INSNS)
    requires ExecBlock(CurrentInsns(e), e.m).Some?
    ensures Steps(e.m, |CurrentInsns(e)|) == ExecBlock(CurrentInsns(e), e.m)
  {
    hide LeavesItselfAlone, Decode, Step, Exec, ExecOk, CurrentInsns;
    if e.m.pc < 4096 {
      BlockIsDecoded(e.m.d.mem, e.m.pc, MAX_INSNS);
      BlockIsSteps(CurrentInsns(e), e.m);
    } else {
      assert CurrentInsns(e) == [];
    }
  }

  // ------------------------------------------------------ the code, in place

  lemma BlockUnrolls(mem: Memory, pc: nat, room: nat, sofar: Insns, whole: Insns)
    requires room > 0 && pc + 1 < 4096 && whole == sofar + BlockFrom(mem, pc, room)
    ensures var ins := Decode(FetchAt(mem, pc));
      whole == if IsTerminal(ins.kind) then sofar + [ins] else (sofar + [ins]) + BlockFrom(mem, pc + 2, room - 1)
  {
    hide Decode, IsTerminal, FetchAt;
  }

  lemma BlockEnds(mem: Memory, pc: nat, room: nat)
    ensures room == 0 || pc + 1 >= 4096 ==> BlockFrom(mem, pc, room) == []
  {
  }

  method DecodeBlock(s: Chip8State, pc: Word) returns (insns: Insns)
    requires s.Valid()
    ensures insns == BlockFrom(s.mem[..], pc, MAX_INSNS)
  {
    hide Decode, IsTerminal, BlockFrom;
    insns := [];
    var addr: int := pc;
    ghost var mem := s.mem[..];
    ghost var whole := BlockFrom(mem, pc, MAX_INSNS);
    while |insns| < MAX_INSNS && addr + 1 < 4096
      invariant addr == pc + 2 * |insns| && |insns| <= MAX_INSNS
      invariant whole == insns + BlockFrom(mem, addr, MAX_INSNS - |insns|)
      decreases MAX_INSNS - |insns|
    {
      var hi: int, lo: int := s.mem[addr], s.mem[addr + 1];
      assert hi * 256 + lo == FetchAt(mem, addr);
      var ins := Decode(hi * 256 + lo);
      BlockUnrolls(mem, addr, MAX_INSNS - |insns|, insns, whole);
      insns := insns + [ins];
      if IsTerminal(ins.kind) { return; }
      addr := addr + 2;
    }
    BlockEnds(mem, addr, MAX_INSNS - |insns|);
  }

  /** Decodes the block at pc and inserts it. */
  method TranslateBlock(s: Chip8State, cache: TbCache.Cache<Insns>, pc: Word) returns (insns: Insns)
    requires s.Valid() && cache.Valid() && cache !in s.Repr && cache.buckets !in s.Repr
    modifies cache, cache.buckets
    ensures cache.Valid() && insns == BlockFrom(s.mem[..], pc, MAX_INSNS)
    ensures cache.log == old(cache.log) + [MakeBlock(s.mem[..], pc)]
  {
    hide BlockFrom;
    insns := DecodeBlock(s, pc);
    cache.Insert(pc, 2 * |insns|, |insns|, insns);
  }

  method ExecuteTb(s: Chip8State, insns: Insns)
    requires s.Valid() && ExecBlock(insns, s.Abs()).Some?
    modifies s, s.V, s.stack, s.mem, s.vram
    ensures s.Valid() && Some(s.Abs()) == ExecBlock(insns, old(s.Abs()))
    ensures s.insnCount == old(s.insnCount) + |insns|
  {
    hide Exec, ExecOk;
    s.insnCount := s.insnCount + |insns|;
    for i := 0 to |insns|
      invariant s.Valid() && s.insnCount == old(s.insnCount) + |insns|
      invariant ExecBlock(insns[i..], s.Abs()) == ExecBlock(insns, old(s.Abs()))
    {
      assert insns[i..][0] == insns[i] && insns[i..][1..] == insns[i + 1..];
      s.ExecInsn(insns[i]);
      if s.waitKey { break; }
    }
  }

  /** One turn of the machine's run loop. */
  method RunOneBlock(s: Chip8State, cache: TbCache.Cache<Insns>)
    requires s.Valid() && cache.Valid() && cache !in s.Repr && cache.buckets !in s.Repr
    requires RunBlock(Emu(cache.log, s.Abs())).Some?
    modifies s, s.V, s.stack, s.mem, s.vram, cache, cache.buckets
    ensures s.Valid() && cache.Valid()
    ensures Some(Emu(cache.log, s.Abs())) == RunBlock(old(Emu(cache.log, s.Abs())))
  {
    hide ExecBlock, BlockFrom;
    ghost var e := Emu(cache.log, s.Abs());
    var tb := cache.Lookup(s.PC);
    var insns;
    if tb.Some? {
      insns := tb.value.insns;
    } else {
      insns := TranslateBlock(s, cache, s.PC);
      assert WithBlock(e) == cache.log;
      assert cache.log[|cache.log| - 1] == MakeBlock(s.mem[..], s.PC);
    }
    ExecuteTb(s, insns);
  }

  /** The instruction k places after pc does not end a block. */
  predicate RunsOn(mem: Memory, pc: nat, k: nat)
    requires pc + 2 * k + 1 < 4096
  {
    !IsTerminal(Decode(FetchAt(mem, pc + 2 * k)).kind)
  }

  lemma {:induction false} LongBlock(mem: Memory, pc: nat, room: nat)
    requires pc + 2 * room <= 4096 && forall k: nat :: k < room ==> RunsOn(mem, pc, k)
    ensures |BlockFrom(mem, pc, room)| == room
    decreases room
  {
    hide Decode, IsTerminal;
    if room > 0 {
      var next := pc + 2;
      assert RunsOn(mem, pc, 0);
      forall k: nat | k < room - 1 ensures RunsOn(mem, next, k) {
        assert RunsOn(mem, pc, k + 1) && next + 2 * k == pc + 2 * (k + 1);
      }
      LongBlock(mem, next, room - 1);
    }
  }

  /** A block that nothing ends before stops at 64 instructions. */
  lemma BlockLimit(mem: Memory, pc: nat)
    requires pc + 128 <= 4096 && forall k: nat :: k < 64 ==> RunsOn(mem, pc, k)
    ensures |BlockFrom(mem, pc, MAX_INSNS)| == 64
  {
    hide Decode, IsTerminal, RunsOn;
    LongBlock(mem, pc, 64);
  }
}
