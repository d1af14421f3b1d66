/** The CHIP-8 machine's whole run loop on a compiled Octo program: cached blocks, frames, held and pressed
    keys, in any order (hardware/machine/chip8/machine_chip8.c). */
module OctoLoop {
  import opened Runs
  import opened Chip8
  import opened Octo
  import opened OctoSimulation
  import opened OctoEvents
  import opened OctoOnCache
  import opened Translate

  /** A block from the cache (while no key is awaited), or something from outside. */
  datatype Turn = RunTb | Outer(os: seq<Outside>)

  function EmuTurn(e: Emu, u: Turn): Option<Emu> {
    match u
    case RunTb => RunBlock(e)
    case Outer(os) => Some(Emu(e.log, MachineAll(e.m, os)))
  }

  function EmuTurns(e: Emu, us: seq<Turn>): Option<Emu>
    decreases |us|
  {
    if us == [] then Some(e)
    else match EmuTurn(e, us[0])
      case None => None
      case Some(f) => EmuTurns(f, us[1..])
  }

  /** What the emulator did, seen without its cache: so many instructions, or something from outside. */
  function ActOf(e: Emu, u: Turn): Act {
    match u
    case RunTb => Insns(|CurrentInsns(e)|)
    case Outer(os) => From(os)
  }

  function EmuActs(e: Emu, us: seq<Turn>): seq<Act>
    decreases |us|
  {
    if us == [] then []
    else [ActOf(e, us[0])] + match EmuTurn(e, us[0]) { case None => [] case Some(f) => EmuActs(f, us[1..]) }
  }

  function Moved(x: Pos, s: Src): Pos {
    match x case At(_) => At(s) case Within(_, i) => Within(s, i)
  }

  /** The source doing the same: from between two statements or from inside an if..begin. */
  function SrcAct(p: Program, x: Pos, a: Act): Option<Pos> {
    match a
    case Insns(k) => SrcInsns(p, x, k)
    case From(os) => Some(Moved(x, SrcAll(x.s, os)))
  }

  function SrcActs(p: Program, x: Pos, acts: seq<Act>): Option<Pos>
    decreases |acts|
  {
    if acts == [] then Some(x)
    else match SrcAct(p, x, acts[0])
      case None => None
      case Some(y) => SrcActs(p, y, acts[1..])
  }

  /** Emulator and source in step, and nothing in the cache but the program as it is in memory. */
  ghost predicate LoopInv(p: Program, x: Pos, e: Emu) {
    InStep(p, x, e.m) && Coherent(e.log, e.m.d.mem) && OfProgram(p, e.log)
  }

  lemma OuterTurn(p: Program, x: Pos, m: Machine, os: seq<Outside>)
    requires InStep(p, x, m) && BelowTop(p)
    ensures InStep(p, Moved(x, SrcAll(x.s, os)), MachineAll(m, os)) && MachineAll(m, os).d.mem == m.d.mem
  {
    hide InStep, Matches, BelowTop, SrcAll, MachineAll, CodeLoaded, ExitAddr, Addr;
    OutsideKeepsCode(m, os);
    if x.At? {
      AtMatches(p, x, m);
      AllOutsideSimulated(p, x.s, m, os);
      AtMatches(p, Moved(x, SrcAll(x.s, os)), MachineAll(m, os));
    } else {
      WithinMatches(p, x, m);
      var a := ExitAddr(p, x.i, |p|) % 4096;
      AllOutsideSimulated(p, x.s, m.(pc := a), os);
      OutsideKeepsPlace(m, os, a);
      WithinMatches(p, Moved(x, SrcAll(x.s, os)), MachineAll(m, os));
    }
  }

  lemma {:induction false} OutsideKeepsCode(m: Machine, os: seq<Outside>)
    ensures MachineAll(m, os).d.mem == m.d.mem && (!m.d.waitKey ==> !MachineAll(m, os).d.waitKey)
    decreases |os|
  {
    if os != [] { OutsideKeepsCode(MachineOutside(m, os[0]), os[1..]); }
  }

  lemma OneTurn(p: Program, x: Pos, e: Emu, u: Turn)
    requires LoopInv(p, x, e) && BelowTop(p) && EmuTurn(e, u).Some? && SrcAct(p, x, ActOf(e, u)).Some?
    ensures LoopInv(p, SrcAct(p, x, ActOf(e, u)).value, EmuTurn(e, u).value)
  {
    hide InStep, Coherent, OfProgram, RunBlock, CurrentInsns, SrcInsns, BelowTop, SrcAll, MachineAll, LeavesItselfAlone,
         CachedBytesKept;
    match u {
      case RunTb => BlockTurn(p, x, e);
      case Outer(os) => OuterTurn(p, x, e.m, os);
    }
  }

  /** The whole loop, from any point of a source run to any later one: whatever the outside does and however
      the frames cut the blocks, source and machine stay in step, and the cache stays right. */
  lemma {:induction false} LoopFollowsSource(p: Program, x: Pos, e: Emu, us: seq<Turn>)
    requires LoopInv(p, x, e) && BelowTop(p) && EmuTurns(e, us).Some? && SrcActs(p, x, EmuActs(e, us)).Some?
    ensures LoopInv(p, SrcActs(p, x, EmuActs(e, us)).value, EmuTurns(e, us).value)
    decreases |us|
  {
    hide LoopInv, BelowTop, EmuTurn, SrcAct, ActOf;
    if us != [] {
      var f, acts := EmuTurn(e, us[0]).value, EmuActs(e, us);
      assert acts[0] == ActOf(e, us[0]) && acts[1..] == EmuActs(f, us[1..]);
      OneTurn(p, x, e, us[0]);
      LoopFollowsSource(p, SrcAct(p, x, ActOf(e, us[0])).value, f, us[1..]);
    }
  }

  /** End to end: what the assembler wrote, loaded into a reset machine and run by the loop from an empty
      cache, goes where its source goes. */
  lemma CompiledProgramLoops(p: Program, out: seq<Byte>, m: Machine, us: seq<Turn>)
    requires BelowTop(p) && Addr(p, |p|) - ROM_BASE <= |out|
    requires forall i :: 0 <= i < |p| ==> BytesAt(out, Addr(p, i) - ROM_BASE, Final(p, i))
    requires m.d.mem[ROM_BASE..Addr(p, |p|)] == out[..Addr(p, |p|) - ROM_BASE]
    requires m.pc == ROM_BASE && m.sp == 0 && !m.d.waitKey
    requires EmuTurns(Emu([], m), us).Some? && SrcActs(p, At(Src(0, [], m.d)), EmuActs(Emu([], m), us)).Some?
    ensures InStep(p, SrcActs(p, At(Src(0, [], m.d)), EmuActs(Emu([], m), us)).value, EmuTurns(Emu([], m), us).value.m)
  {
    hide InStep, Matches, Final, Addr, BelowTop, BlockFrom, EmuTurns, SrcActs, EmuActs;
    CompiledMatches(p, out, m);
    AtMatches(p, At(Src(0, [], m.d)), m);
    LoopFollowsSource(p, At(Src(0, [], m.d)), Emu([], m), us);
  }
}
