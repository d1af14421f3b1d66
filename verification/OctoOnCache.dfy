/** Compiled Octo programs run from the translation cache. */
module OctoOnCache {
  import opened Runs
  import opened Chip8
  import opened Octo
  import opened OctoSimulation
  import opened Translate
  import OctoEvents
  import TbCache

  // --------------------------------------------- every machine step is in the program

  predicate IsWordOf(p: Program, i: nat, a: int)
    requires i < |p|
  {
    IsCode(p[i]) && Addr(p, i) <= a && a + 2 <= Addr(p, i) + Size(p[i])
  }

  /** An instruction of the program stands at a. */
  ghost predicate CodeWordAt(p: Program, a: int) { exists i :: 0 <= i < |p| && IsWordOf(p, i, a) }

  /** Code words are the same in all memories that hold the code. */
  lemma CodeWordKept(p: Program, x: Memory, y: Memory, a: int)
    requires CodeLoaded(p, x) && CodeLoaded(p, y) && CodeWordAt(p, a)
    ensures 0 <= a && a + 1 < 4096 && x[a] == y[a] && x[a + 1] == y[a + 1]
  {
    hide Final, Addr, Size;
    var i :| 0 <= i < |p| && IsWordOf(p, i, a);
    EndWithin(p, i);
    assert LoadedAt(x, Addr(p, i), Final(p, i)) && LoadedAt(y, Addr(p, i), Final(p, i));
    SameAt(x, y, Addr(p, i), Final(p, i), a);
  }

  lemma SameAt(x: Memory, y: Memory, at: int, b: seq<Byte>, a: int)
    requires LoadedAt(x, at, b) && LoadedAt(y, at, b) && at <= a && a + 2 <= at + |b|
    ensures x[a] == y[a] && x[a + 1] == y[a + 1]
  {
    assert x[at..at + |b|][a - at] == y[at..at + |b|][a - at];
    assert x[at..at + |b|][a + 1 - at] == y[at..at + |b|][a + 1 - at];
  }

  /** Between the skip and the jump of an if..begin whose condition failed: one step more completes it. */
  predicate MidIf(p: Program, s: Src, m: Machine) {
    && SrcStep(p, s).Some? && s.at < |p| && p[s.at].IfBegin? && CodeLoaded(p, m.d.mem)
    && m.pc == Addr(p, s.at) + 2 && Step(m).Some? && Matches(p, SrcStep(p, s).value, Step(m).value)
  }

  lemma IfBeginMiddle(p: Program, s: Src, m: Machine)
    requires Matches(p, s, m) && BelowTop(p) && s.at < |p| && p[s.at].IfBegin? && SrcStep(p, s).Some? && Cost(p, s) == 2
    ensures Step(m).Some? && MidIf(p, s, Step(m).value)
  {
    hide Decode, SkipFalse, SkipTrue, Skips, CondHolds, Final, Addr, Step, CodeLoaded, AddrOp, ScanIf, SrcStep,
         MainWord, Matches, FetchAt;
    var i, c := s.at, p[s.at].c;
    NextAddr(p, i);
    MatchesAt(p, s, m);
    SkipsCorrect(c, s.d);
    IfBytes(p, i);
    SkipStep(p, i, m, SkipTrue(c));
    StepSimulated(p, s, m);
    StepThenStep(m);
  }

  lemma StepThenStep(m: Machine)
    requires Step(m).Some? && Steps(m, 2).Some?
    ensures Step(Step(m).value) == Steps(m, 2)
  {
    hide Step;
    var m1 := Step(m).value;
    assert Steps(m, 2) == Iterate(Step, m1, 1);
    if Step(m1).Some? { OneStep(m1, Step(m1).value); }
  }

  /** A statement that costs something is an instruction at the machine's PC. */
  lemma StatementWord(p: Program, s: Src, m: Machine)
    requires Matches(p, s, m) && SrcStep(p, s).Some? && Cost(p, s) > 0
    ensures CodeWordAt(p, m.pc) && CodeLoaded(p, m.d.mem)
  {
    hide Addr, CodeLoaded, Final, FindLoop, ScanIf;
    assert IsWordOf(p, s.at, m.pc);
  }

  lemma SecondWord(p: Program, i: nat, a: int)
    requires i < |p| && p[i].IfBegin? && a == Addr(p, i) + 2
    ensures CodeWordAt(p, a)
  {
    assert IsWordOf(p, i, a);
  }

  lemma MatchesLoaded(p: Program, s: Src, m: Machine)
    requires Matches(p, s, m)
    ensures CodeLoaded(p, m.d.mem)
  {
    hide CodeLoaded;
  }

  /** After any t of the machine's steps for n statements: how many statements j are done (with at most
      the skip of the next one), that the code is intact, and that the next step is an instruction of it. */
  lemma {:induction false} Where(p: Program, s: Src, m: Machine, n: nat, t: nat) returns (j: nat)
    requires Matches(p, s, m) && BelowTop(p) && SrcRun(p, s, n).Some? && t <= RunCost(p, s, n)
    ensures Steps(m, t).Some? && CodeLoaded(p, Steps(m, t).value.d.mem)
    ensures t < RunCost(p, s, n) ==> CodeWordAt(p, Steps(m, t).value.pc)
    ensures j <= n && SrcRun(p, s, j).Some? && RunCost(p, s, j) <= t <= RunCost(p, s, j) + 1
    ensures t == RunCost(p, s, j) ==> Matches(p, SrcRun(p, s, j).value, Steps(m, t).value)
    ensures t == RunCost(p, s, j) + 1 ==> MidIf(p, SrcRun(p, s, j).value, Steps(m, t).value)
    decreases n
  {
    hide Matches, BelowTop, SrcStep, Cost, Step, CodeLoaded, MidIf, CodeWordAt;
    if n == 0 || (t == 0 && Cost(p, s) > 0) {
      j := 0;
      MatchesLoaded(p, s, m);
      if t < RunCost(p, s, n) { StatementWord(p, s, m); }
      return;
    }
    StepSimulated(p, s, m);
    var c := Cost(p, s);
    if t >= c {
      var j' := Where(p, SrcStep(p, s).value, Steps(m, c).value, n - 1, t - c);
      IterateCompose(Step, m, c, t - c);
      j := j' + 1;
    } else {
      CostCases(p, s);
      IfBeginMiddle(p, s, m);
      OneStep(m, Step(m).value);
      j := 0;
      MidWord(p, s, Step(m).value);
    }
  }

  lemma CostCases(p: Program, s: Src)
    ensures Cost(p, s) <= 2 && (Cost(p, s) == 2 ==> s.at < |p| && p[s.at].IfBegin?)
  {
  }

  lemma MidWord(p: Program, s: Src, m: Machine)
    requires MidIf(p, s, m)
    ensures CodeLoaded(p, m.d.mem) && CodeWordAt(p, m.pc)
  {
    hide CodeLoaded, CodeWordAt, Addr, SrcStep, Step, Matches;
    SecondWord(p, s.at, m.pc);
  }

  // ------------------------------------------------- cached blocks are in the program

  /** All len instructions from pc on are the program's. */
  ghost predicate AllCode(p: Program, pc: int, len: nat) {
    forall q :: 0 <= q < len ==> CodeWordAt(p, pc + 2 * q)
  }

  /** The cache holds nothing but the program's instructions. */
  ghost predicate OfProgram(p: Program, log: Log) {
    forall pc: nat :: match TbCache.Latest(log, pc)
      case None => true
      case Some(b) => AllCode(p, pc, |b.insns|)
  }

  lemma CodeBytesSame(p: Program, x: Memory, y: Memory, pc: nat, len: nat)
    requires CodeLoaded(p, x) && CodeLoaded(p, y) && AllCode(p, pc, len)
    ensures SameBytes(x, y, pc, pc + 2 * len)
  {
    hide CodeLoaded, CodeWordAt;
    forall i | 0 <= i < 4096 && pc <= i < pc + 2 * len ensures x[i] == y[i] {
      CodeWordKept(p, x, y, pc + 2 * ((i - pc) / 2));
    }
  }

  lemma CachedSame(p: Program, log: Log, x: Memory, y: Memory)
    requires CodeLoaded(p, x) && CodeLoaded(p, y) && OfProgram(p, log)
    ensures CachedBytesKept(log, x, y)
  {
    hide CodeLoaded, AllCode, SameBytes;
    forall pc: nat | TbCache.Latest(log, pc).Some?
      ensures SameBytes(x, y, pc, pc + 2 * |TbCache.Latest(log, pc).value.insns|)
    {
      CodeBytesSame(p, x, y, pc, |TbCache.Latest(log, pc).value.insns|);
    }
  }

  // ------------------------------------------------- the source, instruction by instruction

  /** Between statements; or inside the if..begin at i, whose condition failed: control goes on at s,
      the machine's jump there is still to come. */
  datatype Pos = At(s: Src) | Within(s: Src, i: nat)

  predicate InStep(p: Program, x: Pos, m: Machine) {
    match x
    case At(s) => Matches(p, s, m)
    case Within(s, i) =>
      && i < |p| && p[i].IfBegin? && m.pc == Addr(p, i) + 2 && CodeLoaded(p, m.d.mem) && !m.d.waitKey
      && Matches(p, s, m.(pc := ExitAddr(p, i, |p|) % 4096))
  }

  /** A statement that costs nothing is a marker. */
  lemma FreeStatement(p: Program, s: Src)
    requires SrcStep(p, s).Some? && Cost(p, s) == 0
    ensures s.at < |p| && (p[s.at].Label? || p[s.at].Loop? || p[s.at].End?) && !s.d.waitKey
    ensures SrcStep(p, s).value == s.(at := s.at + 1)
  {
    hide FindLoop, ScanIf, TargetStmt, CondHolds, Effect, RefAddr;
  }

  /** The source after exactly t instructions. */
  function SrcInsns(p: Program, x: Pos, t: nat): Option<Pos>
    decreases t, if x.s.at <= |p| then |p| - x.s.at else 0
  {
    if t == 0 then Some(x)
    else if x.Within? then SrcInsns(p, At(x.s), t - 1)
    else match SrcStep(p, x.s)
      case None => None
      case Some(u) =>
        if Cost(p, x.s) == 0 then
          FreeStatement(p, x.s);
          SrcInsns(p, At(u), t)
        else SrcInsns(p, if Cost(p, x.s) == 2 then Within(u, x.s.at) else At(u), t - 1)
  }

  lemma {:induction false} SrcInsnsAdd(p: Program, x: Pos, a: nat, b: nat)
    ensures SrcInsns(p, x, a + b) == match SrcInsns(p, x, a) { case None => None case Some(y) => SrcInsns(p, y, b) }
    decreases a, if x.s.at <= |p| then |p| - x.s.at else 0
  {
    hide SrcStep, Cost;
    if a > 0 {
      if x.Within? {
        SrcInsnsAdd(p, At(x.s), a - 1, b);
      } else if SrcStep(p, x.s).Some? {
        var u := SrcStep(p, x.s).value;
        if Cost(p, x.s) == 0 {
          FreeStatement(p, x.s);
          SrcInsnsAdd(p, At(u), a, b);
        } else {
          SrcInsnsAdd(p, if Cost(p, x.s) == 2 then Within(u, x.s.at) else At(u), a - 1, b);
        }
      }
    }
  }

  /** A run of n statements goes on for all the instructions they cost. */
  lemma {:induction false} RunInsns(p: Program, s: Src, n: nat, t: nat)
    requires SrcRun(p, s, n).Some? && t <= RunCost(p, s, n)
    ensures SrcInsns(p, At(s), t).Some?
    decreases n
  {
    hide SrcStep, Cost;
    if t > 0 {
      var u, c := SrcStep(p, s).value, Cost(p, s);
      CostCases(p, s);
      if c == 0 {
        RunInsns(p, u, n - 1, t);
      } else if c == 1 {
        RunInsns(p, u, n - 1, t - 1);
      } else if t > 1 {
        RunInsns(p, u, n - 1, t - 2);
      }
    }
  }

  /** In step, with t instructions of the source still to come. */
  predicate OnProgram(p: Program, x: Pos, t: nat, m: Machine) {
    InStep(p, x, m) && BelowTop(p) && SrcInsns(p, x, t).Some?
  }

  lemma HoldsCode(p: Program, x: Pos, m: Machine)
    requires InStep(p, x, m)
    ensures CodeLoaded(p, m.d.mem)
  {
    hide CodeLoaded;
  }

  /** The next instruction is one of the program's, and after it machine and source are in step again. */
  lemma {:induction false} StepOn(p: Program, x: Pos, t: nat, m: Machine) returns (y: Pos)
    requires OnProgram(p, x, t, m) && t > 0
    ensures CodeWordAt(p, m.pc) && CodeLoaded(p, m.d.mem)
    ensures Step(m).Some? && OnProgram(p, y, t - 1, Step(m).value) && SrcInsns(p, y, t - 1) == SrcInsns(p, x, t)
    decreases if x.s.at <= |p| then |p| - x.s.at else 0
  {
    hide Matches, BelowTop, SrcStep, Cost, Step, CodeLoaded, CodeWordAt, Addr, Final, AddrOp, ExitAddr, InStep;
    HoldsCode(p, x, m);
    if x.Within? {
      y := At(x.s);
      JumpOn(p, x, m);
    } else {
      AtMatches(p, x, m);
      var s, u := x.s, SrcStep(p, x.s).value;
      CostCases(p, s);
      if Cost(p, s) == 0 {
        FreeStatement(p, s);
        MarkerSimulated(p, s, m);
        AtMatches(p, At(u), m);
        y := StepOn(p, At(u), t, m);
      } else if Cost(p, s) == 1 {
        y := At(u);
        StatementWord(p, s, m);
        StepSimulated(p, s, m);
        SingleStep(m);
        AtMatches(p, y, Step(m).value);
      } else {
        y := Within(u, s.at);
        StatementWord(p, s, m);
        var m1 := OctoEvents.SkipToJump(p, s, m);
        WithinMatches(p, y, m1);
      }
    }
  }

  lemma AtMatches(p: Program, x: Pos, m: Machine)
    requires x.At?
    ensures InStep(p, x, m) <==> Matches(p, x.s, m)
  {
    hide Matches;
  }

  lemma WithinMatches(p: Program, x: Pos, m: Machine)
    requires x.Within?
    ensures InStep(p, x, m) <==>
      && x.i < |p| && p[x.i].IfBegin? && m.pc == Addr(p, x.i) + 2 && CodeLoaded(p, m.d.mem) && !m.d.waitKey
      && Matches(p, x.s, m.(pc := ExitAddr(p, x.i, |p|) % 4096))
  {
    hide Matches, CodeLoaded, Addr, ExitAddr;
  }

  lemma SingleStep(m: Machine)
    requires Steps(m, 1).Some?
    ensures Step(m) == Steps(m, 1)
  {
    hide Step;
    if Step(m).Some? { OneStep(m, Step(m).value); }
  }

  lemma JumpOn(p: Program, x: Pos, m: Machine)
    requires x.Within? && InStep(p, x, m)
    ensures CodeWordAt(p, m.pc) && Step(m).Some? && InStep(p, At(x.s), Step(m).value)
  {
    hide Matches, CodeLoaded, CodeWordAt, Addr, ExitAddr, InStep, Step, Final, AddrOp;
    WithinMatches(p, x, m);
    IfBytes(p, x.i);
    JumpStep(p, x.i, 2, m, ExitAddr(p, x.i, |p|));
    SecondWord(p, x.i, m.pc);
    AtMatches(p, At(x.s), Step(m).value);
  }

  /** The first instruction of a block the source has reached, executed. */
  lemma BlockHead(p: Program, x: Pos, t: nat, m: Machine, mem: Memory, insns: Insns) returns (y: Pos)
    requires OnProgram(p, x, t, m) && t > 0 && insns != []
    requires CodeLoaded(p, mem) && DecodedAt(insns, mem, m.pc)
    ensures ExecOk(insns[0], m) && Step(m) == Some(Exec(insns[0], m))
    ensures OnProgram(p, y, t - 1, Exec(insns[0], m)) && SrcInsns(p, y, t - 1) == SrcInsns(p, x, t)
    ensures CodeWordAt(p, m.pc) && CodeLoaded(p, m.d.mem) && CodeLoaded(p, Exec(insns[0], m).d.mem)
    ensures |insns| > 1 ==> Exec(insns[0], m).pc == m.pc + 2 && DecodedAt(insns[1..], mem, m.pc + 2)
  {
    hide InStep, Decode, IsTerminal, Exec, ExecOk, CodeLoaded, CodeWordAt, DecodedAt, Step, SrcInsns, BelowTop;
    y := StepOn(p, x, t, m);
    CodeWordKept(p, mem, m.d.mem, m.pc);
    FirstInsn(insns, mem, m);
    HoldsCode(p, y, Step(m).value);
    if |insns| > 1 {
      NonTerminalFallsThrough(insns[0], m);
      DecodedRest(insns, mem, m.pc);
    }
  }

  lemma {:induction false} LeavesFirst(insns: Insns, m: Machine)
    requires insns != [] && ExecOk(insns[0], m) && LeavesItselfAlone(insns[1..], Exec(insns[0], m))
    requires SameBytes(m.d.mem, Exec(insns[0], m).d.mem, m.pc + 2, m.pc + 2 * |insns|)
    ensures LeavesItselfAlone(insns, m)
  {
    hide Exec, ExecOk, SameBytes;
  }

  lemma {:induction false} LeavesLast(insns: Insns, m: Machine)
    requires |insns| <= 1
    ensures LeavesItselfAlone(insns, m)
  {
    hide Exec, ExecOk;
    assert |insns| == 1 ==> insns[1..] == [];
  }

  /** A block decoded when the code was in place, and reached by the source: it is all code, it leaves
      itself alone, and source and machine are in step after it. */
  lemma {:induction false} BlockOnProgram(p: Program, x: Pos, m: Machine, mem: Memory, insns: Insns)
    requires OnProgram(p, x, |insns|, m) && CodeLoaded(p, mem) && DecodedAt(insns, mem, m.pc)
    ensures AllCode(p, m.pc, |insns|) && LeavesItselfAlone(insns, m)
    ensures Steps(m, |insns|).Some? && InStep(p, SrcInsns(p, x, |insns|).value, Steps(m, |insns|).value)
    decreases |insns|
  {
    hide InStep, Exec, ExecOk, CodeLoaded, CodeWordAt, DecodedAt, Step, LeavesItselfAlone, SameBytes, SrcInsns, BelowTop;
    if |insns| <= 1 { LeavesLast(insns, m); }
    NoInsns(p, x, m);
    if insns != [] {
      var y := BlockHead(p, x, |insns|, m, mem, insns);
      var m1 := Exec(insns[0], m);
      OneStep(m, m1);
      NoInsns(p, y, m1);
      if |insns| > 1 {
        BlockOnProgram(p, y, m1, mem, insns[1..]);
        RestIsCode(p, m.pc, |insns|);
        CodeBytesSame(p, m.d.mem, m1.d.mem, m.pc + 2, |insns| - 1);
        LeavesFirst(insns, m);
        IterateCompose(Step, m, 1, |insns| - 1);
      }
    }
  }

  lemma NoInsns(p: Program, x: Pos, m: Machine)
    ensures LeavesItselfAlone([], m) && AllCode(p, m.pc, 0) && Steps(m, 0) == Some(m) && SrcInsns(p, x, 0) == Some(x)
  {
  }

  lemma RestIsCode(p: Program, pc: int, len: nat)
    requires len > 1 && CodeWordAt(p, pc) && AllCode(p, pc + 2, len - 1)
    ensures AllCode(p, pc, len)
  {
    hide CodeWordAt;
    forall q | 0 <= q < len ensures CodeWordAt(p, pc + 2 * q) {
      if q > 0 { assert CodeWordAt(p, pc + 2 + 2 * (q - 1)); }
    }
  }

  // --------------------------------------------------------------- cached runs

  lemma LookupOfProgram(p: Program, e: Emu)
    requires OfProgram(p, e.log) && AllCode(p, e.m.pc, |CurrentInsns(e)|)
    ensures OfProgram(p, WithBlock(e))
  {
    hide BlockFrom, AllCode;
    var log := WithBlock(e);
    if TbCache.Latest(e.log, e.m.pc).None? {
      assert log[..|log| - 1] == e.log;
      forall pc: nat ensures TbCache.Latest(log, pc) ==
        if pc == e.m.pc then Some(MakeBlock(e.m.d.mem, pc)) else TbCache.Latest(e.log, pc)
      {
      }
    }
  }

  lemma TurnParts(e: Emu)
    requires RunBlock(e).Some?
    ensures !e.m.d.waitKey && ExecBlock(CurrentInsns(e), e.m) == Some(RunBlock(e).value.m) && RunBlock(e).value.log == WithBlock(e)
  {
    hide ExecBlock, CurrentInsns, WithBlock;
  }

  lemma BlockOfEnd(mem: Memory, pc: nat)
    requires pc >= 4096
    ensures BlockFrom(mem, pc, MAX_INSNS) == []
  {
  }

  /** One turn of the run loop, on the program: what a store-free turn needs follows. */
  lemma BlockTurn(p: Program, x: Pos, e: Emu)
    requires OnProgram(p, x, |CurrentInsns(e)|, e.m) && Coherent(e.log, e.m.d.mem) && OfProgram(p, e.log)
    requires RunBlock(e).Some?
    ensures var u := RunBlock(e).value;
      && LeavesItselfAlone(CurrentInsns(e), e.m) && CachedBytesKept(u.log, e.m.d.mem, u.m.d.mem)
      && Coherent(u.log, u.m.d.mem) && OfProgram(p, u.log)
      && InStep(p, SrcInsns(p, x, |CurrentInsns(e)|).value, u.m)
  {
    hide InStep, ExecBlock, RunBlock, CurrentInsns, WithBlock, Coherent, OfProgram, CachedBytesKept, BlockFrom, DecodedAt,
         LeavesItselfAlone, SrcInsns, CodeLoaded, Step, AllCode, BelowTop;
    var insns, u := CurrentInsns(e), RunBlock(e).value;
    TurnParts(e);
    LookupKeepsCoherence(e);
    HoldsCode(p, x, e.m);
    if e.m.pc < 4096 {
      BlockIsDecoded(e.m.d.mem, e.m.pc, MAX_INSNS);
      BlockOnProgram(p, x, e.m, e.m.d.mem, insns);
    } else {
      BlockOfEnd(e.m.d.mem, e.m.pc);
      NoInsns(p, x, e.m);
    }
    OneBlockIsSteps(e);
    LookupOfProgram(p, e);
    HoldsCode(p, SrcInsns(p, x, |insns|).value, u.m);
    CachedSame(p, u.log, e.m.d.mem, u.m.d.mem);
    CoherentKept(u.log, e.m.d.mem, u.m.d.mem);
  }

  /** A source run leaves no room for stores into code: whatever blocks fit into it are safe. */
  lemma {:induction false} SourceStoresNoCode(p: Program, x: Pos, e: Emu, k: nat)
    requires OnProgram(p, x, InsnsRun(e, k), e.m) && Coherent(e.log, e.m.d.mem) && OfProgram(p, e.log)
    requires Iterate(RunBlock, e, k).Some?
    ensures NoCodeStores(e, k)
    decreases k
  {
    hide InStep, RunBlock, CurrentInsns, WithBlock, Coherent, OfProgram, CachedBytesKept, BlockFrom, LeavesItselfAlone,
         SrcInsns, Step, BelowTop;
    if k > 0 {
      var c, u := |CurrentInsns(e)|, RunBlock(e).value;
      SrcInsnsAdd(p, x, c, InsnsRun(u, k - 1));
      BlockTurn(p, x, e);
      SourceStoresNoCode(p, SrcInsns(p, x, c).value, u, k - 1);
    }
  }

  /** Where the emulator is after executing as many instructions as it did: at a source state between
      statements, or between the skip and the jump of an if..begin. */
  ghost predicate FollowsSource(p: Program, s: Src, j: nat, t: nat, m: Machine) {
    && SrcRun(p, s, j).Some? && RunCost(p, s, j) <= t <= RunCost(p, s, j) + 1
    && (t == RunCost(p, s, j) ==> Matches(p, SrcRun(p, s, j).value, m))
    && (t == RunCost(p, s, j) + 1 ==> MidIf(p, SrcRun(p, s, j).value, m))
  }

  /** However many cached blocks execute within a source run, the emulator is with the source. */
  lemma CachedRunMatchesSource(p: Program, s: Src, e: Emu, k: nat, n: nat)
    requires Matches(p, s, e.m) && BelowTop(p) && SrcRun(p, s, n).Some?
    requires Coherent(e.log, e.m.d.mem) && OfProgram(p, e.log)
    requires Iterate(RunBlock, e, k).Some? && InsnsRun(e, k) <= RunCost(p, s, n)
    ensures exists j :: 0 <= j <= n && FollowsSource(p, s, j, InsnsRun(e, k), Iterate(RunBlock, e, k).value.m)
  {
    hide Matches, Coherent, OfProgram, NoCodeStores, RunBlock, InsnsRun, RunCost, SrcRun, Step, MidIf, CodeLoaded, CodeWordAt,
         SrcInsns, InStep, BelowTop;
    RunInsns(p, s, n, InsnsRun(e, k));
    AtMatches(p, At(s), e.m);
    SourceStoresNoCode(p, At(s), e, k);
    CachedRunIsSteps(e, k);
    var j := Where(p, s, e.m, n, InsnsRun(e, k));
    assert FollowsSource(p, s, j, InsnsRun(e, k), Iterate(RunBlock, e, k).value.m);
  }

  lemma CutBytes(out: seq<Byte>, n: nat, at: int, b: seq<Byte>)
    requires n <= |out| && BytesAt(out, at, b) && at + |b| <= n
    ensures BytesAt(out[..n], at, b)
  {
    assert out[..n][at..at + |b|] == out[at..at + |b|];
  }

  /** What the assembler wrote, loaded at 0x200 into a reset machine, starts in step. */
  lemma CompiledMatches(p: Program, out: seq<Byte>, m: Machine)
    requires BelowTop(p) && Addr(p, |p|) - ROM_BASE <= |out|
    requires forall i :: 0 <= i < |p| ==> BytesAt(out, Addr(p, i) - ROM_BASE, Final(p, i))
    requires m.d.mem[ROM_BASE..Addr(p, |p|)] == out[..Addr(p, |p|) - ROM_BASE]
    requires m.pc == ROM_BASE && m.sp == 0 && !m.d.waitKey
    ensures Matches(p, Src(0, [], m.d), m)
  {
    hide Matches, Final, Addr, Size, BytesAt;
    var rom := out[..Addr(p, |p|) - ROM_BASE];
    forall i | 0 <= i < |p| ensures BytesAt(rom, Addr(p, i) - ROM_BASE, Final(p, i)) {
      assert BytesAt(out, Addr(p, i) - ROM_BASE, Final(p, i));
      EndWithin(p, i);
      CutBytes(out, |rom|, Addr(p, i) - ROM_BASE, Final(p, i));
    }
    LoadedMatches(p, rom, m);
  }

  /** End to end: what the assembler wrote, loaded at 0x200 into a reset machine and run from an empty
      translation cache, goes through the states of the source. */
  lemma CompiledProgramRuns(p: Program, out: seq<Byte>, m: Machine, k: nat, n: nat)
    requires BelowTop(p) && Addr(p, |p|) - ROM_BASE <= |out|
    requires forall i :: 0 <= i < |p| ==> BytesAt(out, Addr(p, i) - ROM_BASE, Final(p, i))
    requires m.d.mem[ROM_BASE..Addr(p, |p|)] == out[..Addr(p, |p|) - ROM_BASE]
    requires m.pc == ROM_BASE && m.sp == 0 && !m.d.waitKey
    requires SrcRun(p, Src(0, [], m.d), n).Some? && Iterate(RunBlock, Emu([], m), k).Some?
    requires InsnsRun(Emu([], m), k) <= RunCost(p, Src(0, [], m.d), n)
    ensures var u, t := Iterate(RunBlock, Emu([], m), k).value.m, InsnsRun(Emu([], m), k);
      exists j :: 0 <= j <= n && FollowsSource(p, Src(0, [], m.d), j, t, u)
  {
    hide Matches, RunBlock, InsnsRun, RunCost, SrcStep, Step, Final, Addr, BlockFrom, FollowsSource;
    CompiledMatches(p, out, m);
    CachedRunMatchesSource(p, Src(0, [], m.d), Emu([], m), k, n);
  }
}
