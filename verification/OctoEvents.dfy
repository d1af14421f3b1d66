/** A compiled Octo program under the run loop: keys are held and pressed and timers run down while it
    executes, at any instruction. */
module OctoEvents {
  import opened Runs
  import opened Chip8
  import opened Octo
  import opened OctoSimulation

  /** What the loop does between instructions: end a frame, take over the held keys, see a key pressed. */
  datatype Outside = Frame | Held(keys: Keypad) | Press(key: Nibble)

  function Down(t: Byte): Byte { if t > 0 then t - 1 else 0 }

  /** The end of a frame counts both timers down and shows the picture. */
  function Ticked(d: Data): Data { d.(delay := Down(d.delay), sound := Down(d.sound), draw := false) }

  function SrcOutside(s: Src, o: Outside): Src {
    match o
    case Frame => s.(d := Ticked(s.d))
    case Held(keys) => s.(d := s.d.(keys := keys))
    case Press(key) => if s.d.waitKey then SrcKey(s, key) else s
  }

  function MachineOutside(m: Machine, o: Outside): Machine {
    match o
    case Frame => m.(d := Ticked(m.d))
    case Held(keys) => m.(d := m.d.(keys := keys))
    case Press(key) => if m.d.waitKey then MachineKey(m, key) else m
  }

  function SrcAll(s: Src, os: seq<Outside>): Src
    decreases |os|
  {
    if os == [] then s else SrcAll(SrcOutside(s, os[0]), os[1..])
  }

  function MachineAll(m: Machine, os: seq<Outside>): Machine
    decreases |os|
  {
    if os == [] then m else MachineAll(MachineOutside(m, os[0]), os[1..])
  }

  /** A run of the source: statements, what happens between two of them, and what happens within one: an
      if..begin whose condition fails is two instructions, and a frame may end after the first. */
  datatype Event = Statements(n: nat) | Between(os: seq<Outside>) | WithinIf(os: seq<Outside>)

  function SrcEvent(p: Program, s: Src, e: Event): Option<Src> {
    match e
    case Statements(n) => SrcRun(p, s, n)
    case Between(os) => Some(SrcAll(s, os))
    case WithinIf(os) =>
      match SrcStep(p, s)
      case None => None
      case Some(t) => if Cost(p, s) == 2 then Some(SrcAll(t, os)) else None
  }

  function SrcEvents(p: Program, s: Src, es: seq<Event>): Option<Src>
    decreases |es|
  {
    if es == [] then Some(s)
    else match SrcEvent(p, s, es[0])
      case None => None
      case Some(t) => SrcEvents(p, t, es[1..])
  }

  /** A run of the machine: so many instructions, or something from outside. */
  datatype Act = Insns(k: nat) | From(os: seq<Outside>)

  function MachineAct(m: Machine, a: Act): Option<Machine> {
    match a
    case Insns(k) => Steps(m, k)
    case From(os) => Some(MachineAll(m, os))
  }

  function MachineActs(m: Machine, acts: seq<Act>): Option<Machine>
    decreases |acts|
  {
    if acts == [] then Some(m)
    else match MachineAct(m, acts[0])
      case None => None
      case Some(t) => MachineActs(t, acts[1..])
  }

  function ActsOf(p: Program, s: Src, e: Event): seq<Act> {
    match e
    case Statements(n) => [Insns(RunCost(p, s, n))]
    case Between(os) => [From(os)]
    case WithinIf(os) => [Insns(1), From(os), Insns(1)]
  }

  function AllActs(p: Program, s: Src, es: seq<Event>): seq<Act>
    decreases |es|
  {
    if es == [] then []
    else ActsOf(p, s, es[0])
         + match SrcEvent(p, s, es[0]) { case None => [] case Some(t) => AllActs(p, t, es[1..]) }
  }

  lemma {:induction false} ActsCompose(m: Machine, a: seq<Act>, b: seq<Act>)
    ensures MachineActs(m, a + b) ==
            match MachineActs(m, a) { case None => None case Some(t) => MachineActs(t, b) }
    decreases |a|
  {
    hide MachineAct;
    if a == [] {
      assert a + b == b;
    } else {
      assert (a + b)[1..] == a[1..] + b;
      match MachineAct(m, a[0]) {
        case None =>
        case Some(t) => ActsCompose(t, a[1..], b);
      }
    }
  }

  /** What comes from outside reaches source and machine alike. */
  lemma OutsideSimulated(p: Program, s: Src, m: Machine, o: Outside)
    requires Matches(p, s, m) && BelowTop(p)
    ensures Matches(p, SrcOutside(s, o), MachineOutside(m, o))
  {
    hide CodeLoaded, Addr;
    if o.Press? && s.d.waitKey { KeySimulated(p, s, m, o.key); }
  }

  lemma {:induction false} AllOutsideSimulated(p: Program, s: Src, m: Machine, os: seq<Outside>)
    requires Matches(p, s, m) && BelowTop(p)
    ensures Matches(p, SrcAll(s, os), MachineAll(m, os))
    decreases |os|
  {
    hide Matches, BelowTop, SrcOutside, MachineOutside;
    if os != [] {
      OutsideSimulated(p, s, m, os[0]);
      AllOutsideSimulated(p, SrcOutside(s, os[0]), MachineOutside(m, os[0]), os[1..]);
    }
  }

  /** While no key is awaited, nothing from outside depends on where the machine is, or moves it. */
  lemma {:induction false} OutsideKeepsPlace(m: Machine, os: seq<Outside>, pc: Word)
    requires !m.d.waitKey
    ensures var t := MachineAll(m, os);
      t.pc == m.pc && t.d.mem == m.d.mem && MachineAll(m.(pc := pc), os) == t.(pc := pc)
    decreases |os|
  {
    if os != [] { OutsideKeepsPlace(MachineOutside(m, os[0]), os[1..], pc); }
  }

  /** An if..begin whose condition fails: its jump still comes after whatever happened in between. */
  lemma WithinIfSimulated(p: Program, s: Src, m: Machine, os: seq<Outside>)
    requires Matches(p, s, m) && BelowTop(p) && SrcStep(p, s).Some? && Cost(p, s) == 2
    ensures var r := MachineActs(m, ActsOf(p, s, WithinIf(os)));
      r.Some? && Matches(p, SrcAll(SrcStep(p, s).value, os), r.value)
  {
    hide Step, Matches, SrcStep, SrcAll, MachineAll, BelowTop, CodeLoaded, AddrOp, Final, Addr, CondHolds, ExitAddr;
    var t, i := SrcStep(p, s).value, s.at;
    StepSimulated(p, s, m);
    var m1 := SkipToJump(p, s, m);
    var a := ExitAddr(p, i, |p|) % 4096;
    AllOutsideSimulated(p, t, m1.(pc := a), os);
    OutsideKeepsPlace(m1, os, a);
    var m2 := MachineAll(m1, os);
    IfBytes(p, i);
    JumpStep(p, i, 2, m2, ExitAddr(p, i, |p|));
    OneStep(m, m1);
    OneStep(m2, m2.(pc := a));
    ThreeActs(m, Insns(1), From(os), Insns(1));
  }

  lemma ThreeActs(m: Machine, a: Act, b: Act, c: Act)
    requires MachineAct(m, a).Some? && MachineAct(MachineAct(m, a).value, b).Some?
    ensures MachineActs(m, [a, b, c]) == MachineAct(MachineAct(MachineAct(m, a).value, b).value, c)
  {
    hide MachineAct;
    assert [a, b, c][1..] == [b, c] && [b, c][1..] == [c] && [c][1..] == [];
    var m2 := MachineAct(MachineAct(m, a).value, b).value;
    assert MachineActs(m2, [c]) == MachineAct(m2, c) by {
      if MachineAct(m2, c).Some? { assert MachineActs(MachineAct(m2, c).value, []) == MachineAct(m2, c); }
    }
  }

  /** After the skip of an if..begin whose condition failed, the machine stands at the jump. */
  lemma SkipToJump(p: Program, s: Src, m: Machine) returns (m1: Machine)
    requires Matches(p, s, m) && BelowTop(p) && SrcStep(p, s).Some? && Cost(p, s) == 2
    ensures s.at < |p| && p[s.at].IfBegin? && Step(m) == Some(m1) && !m1.d.waitKey
    ensures IsCode(p[s.at]) && Size(p[s.at]) == 4 && CodeLoaded(p, m1.d.mem) && m1.pc == Addr(p, s.at) + 2
    ensures Matches(p, SrcStep(p, s).value, m1.(pc := ExitAddr(p, s.at, |p|) % 4096))
  {
    hide Decode, SkipFalse, SkipTrue, Skips, CondHolds, Final, Addr, Step, CodeLoaded, AddrOp, ScanIf, SrcStep,
         MainWord, Matches, FetchAt, ExitAddr;
    var i := s.at;
    assert i < |p| && p[i].IfBegin?;
    NextAddr(p, i);
    MatchesAt(p, s, m);
    SkipsCorrect(p[i].c, s.d);
    IfBytes(p, i);
    IfBeginSource(p, s);
    SkipStep(p, i, m, SkipTrue(p[i].c));
    m1 := m.(pc := m.pc + 2);
    var a := ExitAddr(p, i, |p|);
    JumpStep(p, i, 2, m1, a);
    TwoSteps(m, m1, m1.(pc := a % 4096));
    StepSimulated(p, s, m);
  }

  lemma EventSimulated(p: Program, s: Src, m: Machine, e: Event)
    requires Matches(p, s, m) && BelowTop(p) && SrcEvent(p, s, e).Some?
    ensures var r := MachineActs(m, ActsOf(p, s, e)); r.Some? && Matches(p, SrcEvent(p, s, e).value, r.value)
  {
    hide Matches, BelowTop, SrcStep, Cost, Step, SrcAll, MachineAll, SrcRun, RunCost, Iterate;
    match e {
      case Statements(n) =>
        RunSimulated(p, s, m, n);
        OneAct(m, Insns(RunCost(p, s, n)));
      case Between(os) =>
        AllOutsideSimulated(p, s, m, os);
        OneAct(m, From(os));
      case WithinIf(os) => WithinIfSimulated(p, s, m, os);
    }
  }

  lemma OneAct(m: Machine, a: Act)
    ensures MachineActs(m, [a]) == MachineAct(m, a)
  {
    hide MachineAct;
    if MachineAct(m, a).Some? { assert MachineActs(MachineAct(m, a).value, []) == MachineAct(m, a); }
  }

  /** Whole runs under the loop: keys, frames and statements in any order, the machine is with the source. */
  lemma {:induction false} EventsSimulated(p: Program, s: Src, m: Machine, es: seq<Event>)
    requires Matches(p, s, m) && BelowTop(p) && SrcEvents(p, s, es).Some?
    ensures var r := MachineActs(m, AllActs(p, s, es)); r.Some? && Matches(p, SrcEvents(p, s, es).value, r.value)
    decreases |es|
  {
    hide Matches, BelowTop, SrcEvent, ActsOf;
    if es != [] {
      EventSimulated(p, s, m, es[0]);
      var t := SrcEvent(p, s, es[0]).value;
      var m1 := MachineActs(m, ActsOf(p, s, es[0])).value;
      EventsSimulated(p, t, m1, es[1..]);
      ActsCompose(m, ActsOf(p, s, es[0]), AllActs(p, t, es[1..]));
    }
  }

  /** What the loop does to the machine between instructions: at the end of a frame both timers go down by one unless
      they are zero, and the picture counts as shown; the held keys are those held; a press ends a wait for it. */
  lemma OutsideMeans(m: Machine, keys: Keypad, key: Nibble)
    ensures var t := MachineOutside(m, Frame);
      && t == m.(d := m.d.(delay := t.d.delay, sound := t.d.sound, draw := false))
      && (m.d.delay > 0 ==> t.d.delay == m.d.delay - 1) && (m.d.sound > 0 ==> t.d.sound == m.d.sound - 1)
      && (m.d.delay == 0 ==> t.d.delay == 0) && (m.d.sound == 0 ==> t.d.sound == 0)
    ensures MachineOutside(m, Held(keys)) == m.(d := m.d.(keys := keys))
    ensures var t := MachineOutside(m, Press(key));
      && (!m.d.waitKey ==> t == m)
      && (m.d.waitKey ==> t == m.(pc := t.pc, d := m.d.(waitKey := false, V := m.d.V[m.d.waitReg := key])))
      && (m.d.waitKey ==> t.pc == if m.pc + 2 < 65536 then m.pc + 2 else m.pc + 2 - 65536)
  {
  }
}
