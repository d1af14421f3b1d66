/** IA-32 string port I/O, INS and OUTS with REP, interrupted by faults and restarted
    (cpu/ia64/merced_ia32.c). */
module RepIo {
  import opened Runs
  import opened Arithmetic

  function Pow2(bytes: nat): nat {
    match bytes
    case 1 => 0x100 case 2 => 0x1_0000 case _ => 0x1_0000_0000
  }

  predicate Size(n: nat) { n == 1 || n == 2 || n == 4 }

  // -------------------------------------------------------------------- registers

  /** The eight 64-bit registers behind EAX to EDI. */
  type Registers = seq<nat>

  /** Register r as an IA-32 program sees it: with one byte, 4 to 7 are AH to BH. */
  function Xr(g: Registers, r: nat, size: nat): nat
    requires |g| == 8 && r < 8
  {
    if size == 1 && r >= 4 then g[r - 4] / 256 % 256 else g[r] % Pow2(size)
  }

  function SetXr(g: Registers, r: nat, size: nat, v: int): (g': Registers)
    requires |g| == 8 && r < 8
    ensures |g'| == 8
  {
    if size == 1 && r >= 4 then
      g[r - 4 := g[r - 4] - g[r - 4] / 256 % 256 * 256 + v % 256 * 256]
    else
      g[r := g[r] - g[r] % Pow2(size) + v % Pow2(size)]
  }

  lemma KeepLow(a: nat, m: nat, v: int)
    requires m > 0
    ensures (a - a % m + v % m) % m == v % m
  {
    assert a - a % m == m * (a / m);
    DivUnique(m * (a / m) + v % m, m, a / m, v % m);
  }

  /** A register reads back what was written, cut to its size; the others keep their values. */
  lemma SetXrReads(g: Registers, r: nat, size: nat, v: int, q: nat)
    requires |g| == 8 && r < 8 && q < 8 && (size == 2 || size == 4)
    ensures Xr(SetXr(g, r, size, v), r, size) == v % Pow2(size)
    ensures forall n: nat :: q != r && n != 1 ==> Xr(SetXr(g, r, size, v), q, n) == Xr(g, q, n)
  {
    KeepLow(g[r], Pow2(size), v);
  }

  // ----------------------------------------------------------------- the machine

  /** Memory bytes by address (0 where none), values the port will deliver, values it was sent. */
  datatype State = State(g: Registers, mem: map<int, int>, input: seq<nat>, output: seq<(nat, nat, nat)>)

  function Load(mem: map<int, int>, a: nat, n: nat): nat
    decreases n
  {
    if n == 0 then 0 else (if a in mem then mem[a] else 0) % 256 + 256 * Load(mem, a + 1, n - 1)
  }

  function Store(mem: map<int, int>, a: nat, n: nat, v: nat): map<int, int>
    decreases n
  {
    if n == 0 then mem else Store(mem[a := v % 256], a + 1, n - 1, v / 256)
  }

  /** The instruction: direction, element size, address size, prefix, flag, and segment base. */
  datatype Insn = Insn(out: bool, n: nat, asize: nat, rep: bool, df: bool, base: nat)

  predicate ValidInsn(i: Insn) { Size(i.n) && (i.asize == 2 || i.asize == 4) }
  predicate Valid(s: State) { |s.g| == 8 }

  const ECX := 1
  const EDX := 2
  const ESI := 6
  const EDI := 7

  function Port(s: State): nat
    requires Valid(s)
  {
    Xr(s.g, EDX, 2)
  }

  function Address(i: Insn, s: State): nat
    requires Valid(s)
  {
    (i.base + Xr(s.g, if i.out then ESI else EDI, i.asize)) % 0x1_0000_0000
  }

  function StepOf(i: Insn): int { if i.df then 0 - i.n as int else i.n }

  /** Iterations the instruction asks for. */
  function Count(i: Insn, s: State): nat
    requires Valid(s)
  {
    if i.rep then Xr(s.g, ECX, i.asize) else 1
  }

  function Delivered(s: State, n: nat): nat { if s.input == [] then 0 else s.input[0] % Pow2(n) }
  function Consumed(s: State): State { if s.input == [] then s else s.(input := s.input[1..]) }

  /** One iteration's data: memory to port, or port to memory. */
  function Transfer(i: Insn, s: State): (t: State)
    requires Valid(s)
    ensures t.g == s.g
  {
    if i.out then s.(output := s.output + [(Port(s), i.n, Load(s.mem, Address(i, s), i.n))])
    else Consumed(s).(mem := Store(s.mem, Address(i, s), i.n, Delivered(s, i.n)))
  }

  /** One iteration: the data, the index register, the count. */
  function Iteration(i: Insn, s: State): (t: State)
    requires Valid(s)
    ensures Valid(t)
  {
    var r := if i.out then ESI else EDI;
    var g := SetXr(s.g, r, i.asize, Xr(s.g, r, i.asize) + StepOf(i));
    Transfer(i, s).(g := if i.rep then SetXr(g, ECX, i.asize, Count(i, s) - 1) else g)
  }

  function Iterations(i: Insn, s: State, k: nat): (t: State)
    requires Valid(s)
    ensures Valid(t)
    decreases k
  {
    if k == 0 then s else Iterations(i, Iteration(i, s), k - 1)
  }

  /** The instruction, never interrupted. */
  function Whole(i: Insn, s: State): State
    requires Valid(s)
  {
    Iterations(i, s, Count(i, s))
  }

  // ---------------------------------------------------------------------- faults

  /** What happens to an iteration: it succeeds, its memory operand or its port faults, or (INS) the
      store faults although the probe succeeded, after the port value was taken. */
  datatype Outcome = Fine | NoMemory | NoPort | NoStore

  lemma CountDown(i: Insn, s: State)
    requires Valid(s) && ValidInsn(i) && i.rep && Count(i, s) > 0
    ensures Count(i, Iteration(i, s)) == Count(i, s) - 1
  {
    hide SetXr;
    var r := if i.out then ESI else EDI;
    var g := SetXr(s.g, r, i.asize, Xr(s.g, r, i.asize) + StepOf(i));
    SetXrReads(g, ECX, i.asize, Count(i, s) - 1, r);
    SmallMod(Count(i, s) - 1, Pow2(i.asize));
  }

  lemma SmallMod(a: nat, m: nat)
    requires a < m
    ensures a % m == a
  {
  }

  lemma {:induction false} CountAfter(i: Insn, s: State, k: nat)
    requires Valid(s) && ValidInsn(i) && i.rep && k <= Count(i, s)
    ensures Count(i, Iterations(i, s, k)) == Count(i, s) - k
    decreases k
  {
    hide Iteration, Xr;
    if k > 0 {
      CountDown(i, s);
      CountAfter(i, Iteration(i, s), k - 1);
    }
  }

  lemma {:induction false} IterationsAdd(i: Insn, s: State, j: nat, k: nat)
    requires Valid(s)
    ensures Iterations(i, Iterations(i, s, j), k) == Iterations(i, s, j + k)
    decreases j
  {
    hide Iteration;
    if j > 0 { IterationsAdd(i, Iteration(i, s), j - 1, k); }
  }

  /** Stopped after any number of iterations, the restarted instruction does exactly the rest. */
  lemma RestDoesTheRest(i: Insn, s: State, k: nat)
    requires Valid(s) && ValidInsn(i) && k <= Count(i, s) && (i.rep || k == 0)
    ensures Whole(i, Iterations(i, s, k)) == Whole(i, s)
  {
    hide Iteration, Xr;
    if i.rep {
      CountAfter(i, s, k);
      IterationsAdd(i, s, k, Count(i, s) - k);
    }
  }

  lemma {:induction false} IterationsLast(i: Insn, s: State, k: nat)
    requires Valid(s)
    ensures Iterations(i, s, k + 1) == Iteration(i, Iterations(i, s, k))
    decreases k
  {
    hide Iteration;
    if k > 0 { IterationsLast(i, Iteration(i, s), k - 1); }
  }

  predicate Stops(i: Insn, o: Outcome) { o == NoMemory || o == NoPort || (o == NoStore && !i.out) }

  function At(plan: seq<Outcome>, k: nat): Outcome { if k < |plan| then plan[k] else Fine }

  /** How many of count iterations an attempt does before an outcome stops it, from iteration k on. */
  function Reach(i: Insn, plan: seq<Outcome>, count: nat, k: nat): (r: nat)
    requires k <= count
    ensures k <= r <= count && (forall j :: k <= j < r ==> !Stops(i, At(plan, j)))
    ensures r < count ==> r < |plan| && Stops(i, plan[r])
    decreases count - k
  {
    if k == count || Stops(i, At(plan, k)) then k else Reach(i, plan, count, k + 1)
  }

  /** An attempt at count iterations ends on a store fault, after its port value was taken. */
  predicate LosesValue(i: Insn, plan: seq<Outcome>, count: nat) {
    Reach(i, plan, count, 0) < count && plan[Reach(i, plan, count, 0)] == NoStore
  }

  /** What one attempt leaves behind. */
  function Attempt(i: Insn, s: State, plan: seq<Outcome>): State
    requires Valid(s)
  {
    var k := Reach(i, plan, Count(i, s), 0);
    if LosesValue(i, plan, Count(i, s)) then Consumed(Iterations(i, s, k)) else Iterations(i, s, k)
  }

  /** Values lost by executing and restarting, one plan an attempt, until the count is used up. */
  function Lost(i: Insn, count: nat, plans: seq<seq<Outcome>>): nat
    decreases |plans|
  {
    if plans == [] then 0
    else
      var k := Reach(i, plans[0], count, 0);
      if k == count then 0
      else (if LosesValue(i, plans[0], count) then 1 else 0) + Lost(i, if i.rep then count - k else count, plans[1..])
  }

  /** The attempts suffice to finish. */
  predicate Finishes(i: Insn, count: nat, plans: seq<seq<Outcome>>)
    decreases |plans|
  {
    && plans != []
    && var k := Reach(i, plans[0], count, 0);
       k == count || Finishes(i, if i.rep then count - k else count, plans[1..])
  }

  class Cpu {
    var s: State

    /** One iteration; false when it faults, and then only a value already taken from the port is gone. */
    method Iterate(i: Insn, outcome: Outcome) returns (ok: bool)
      requires Valid(s) && ValidInsn(i) && Count(i, s) > 0
      modifies this
      ensures ok <==> !Stops(i, outcome)
      ensures ok ==> s == Iteration(i, old(s))
      ensures !ok ==> s == if outcome == NoStore then Consumed(old(s)) else old(s)
    {
      hide Xr, SetXr, Load, Store;
      var count := Count(i, s);
      if outcome == NoMemory { return false; }
      if i.out {
        var si := Xr(s.g, ESI, i.asize);
        var v := Load(s.mem, (i.base + si) % 0x1_0000_0000, i.n);
        if outcome == NoPort { return false; }
        s := s.(output := s.output + [(Port(s), i.n, v)]);
        s := s.(g := SetXr(s.g, ESI, i.asize, si + StepOf(i)));
      } else {
        var di := Xr(s.g, EDI, i.asize);
        if outcome == NoPort { return false; }
        var v := Delivered(s, i.n);
        s := Consumed(s);
        if outcome == NoStore { return false; }
        s := s.(mem := Store(s.mem, (i.base + di) % 0x1_0000_0000, i.n, v));
        s := s.(g := SetXr(s.g, EDI, i.asize, di + StepOf(i)));
      }
      count := count - 1;
      if i.rep { s := s.(g := SetXr(s.g, ECX, i.asize, count)); }
      ok := true;
    }

    /** One execution, following a plan of outcomes (Fine after its end). */
    method Execute(i: Insn, plan: seq<Outcome>) returns (done: bool, k: nat)
      requires Valid(s) && ValidInsn(i)
      modifies this
      ensures Valid(s) && k == Reach(i, plan, Count(i, old(s)), 0) && (done <==> k == Count(i, old(s)))
      ensures s == Attempt(i, old(s), plan)
    {
      hide Iteration, Xr;
      var s0 := s;
      var count := Count(i, s);
      k := 0;
      while count > 0
        invariant Valid(s) && k <= Count(i, s0) && count == Count(i, s0) - k
        invariant s == Iterations(i, s0, k)
        invariant Reach(i, plan, Count(i, s0), k) == Reach(i, plan, Count(i, s0), 0)
        decreases count
      {
        if i.rep { CountAfter(i, s0, k); }
        var ok := Iterate(i, At(plan, k));
        if !ok { return false, k; }
        IterationsLast(i, s0, k);
        count, k := count - 1, k + 1;
      }
      done := true;
    }

    /** Executes, and restarts after every fault, once for each plan. With enough values waiting in
        the port the outcome is the uninterrupted one if and only if no value was lost. */
    method ExecuteRestarting(i: Insn, plans: seq<seq<Outcome>>) returns (done: bool, lost: nat)
      requires Valid(s) && ValidInsn(i)
      modifies this
      ensures done <==> Finishes(i, Count(i, old(s)), plans)
      ensures lost == Lost(i, Count(i, old(s)), plans)
      ensures done && lost == 0 ==> s == Whole(i, old(s))
      ensures done && |old(s).input| >= Count(i, old(s)) + |plans| ==> (s == Whole(i, old(s)) <==> lost == 0)
    {
      hide Iteration, Xr, Stops, Reach, LosesValue, Lost, Finishes, Progress;
      ghost var s0 := s;
      lost := 0;
      ghost var taken := 0;
      ghost var left := Count(i, s);
      AttemptsEnd(i, left, plans);
      NoProgress(i, s);
      for a := 0 to |plans|
        invariant Progress(i, s0, s, taken, lost) && (!i.rep ==> taken == 0)
        invariant Valid(s) && left == Count(i, s) && lost <= a
        invariant lost + Lost(i, left, plans[a..]) == Lost(i, Count(i, s0), plans)
        invariant Finishes(i, left, plans[a..]) <==> Finishes(i, Count(i, s0), plans)
      {
        AttemptsStep(i, left, plans, a);
        ghost var before := s;
        var count := Count(i, s);
        var ok, k := Execute(i, plans[a]);
        var loses := LosesValue(i, plans[a], count);
        OnlyInput(i, plans[a], count);
        ProgressCount(i, s0, before, taken, lost);
        MoreProgress(i, s0, before, s, taken, lost, k, loses);
        taken := taken + k;
        if loses { lost := lost + 1; }
        ProgressCount(i, s0, s, taken, lost);
        if ok {
          ProgressEnds(i, s0, s, taken, lost, |plans|);
          return true, lost;
        }
        left := Count(i, s);
      }
      AttemptsEnd(i, left, plans);
      done := false;
    }
  }

  /** From s to t, k values were taken from the port by INS, or k sent to it by OUTS. */
  predicate Moved(i: Insn, s: State, t: State, k: nat) {
    if i.out then t.input == s.input && |t.output| == |s.output| + k && s.output <= t.output && t.mem == s.mem
    else t.output == s.output && t.input == if k <= |s.input| then s.input[k..] else []
  }

  lemma MovesOne(i: Insn, s: State)
    requires Valid(s)
    ensures Moved(i, s, Iteration(i, s), 1)
  {
    hide SetXr, Xr, Load, Store;
  }

  lemma MovesAdd(i: Insn, s: State, t: State, u: State, k: nat)
    requires Moved(i, s, t, 1) && Moved(i, t, u, k)
    ensures Moved(i, s, u, k + 1)
  {
  }

  lemma {:induction false} TakesOneEach(i: Insn, s: State, k: nat)
    requires Valid(s)
    ensures Moved(i, s, Iterations(i, s, k), k)
    decreases k
  {
    hide Iteration;
    if k > 0 {
      MovesOne(i, s);
      TakesOneEach(i, Iteration(i, s), k - 1);
      MovesAdd(i, s, Iteration(i, s), Iterations(i, s, k), k - 1);
    }
  }

  /** After taken iterations and lost values: the uninterrupted state if none was lost, and in any case
      as many values gone from the port as were taken and lost. */
  ghost predicate Progress(i: Insn, s0: State, s: State, taken: nat, lost: nat) {
    && Valid(s0) && Valid(s) && taken <= Count(i, s0) && (i.rep ==> Count(i, s) == Count(i, s0) - taken)
    && (i.out ==> lost == 0)
    && (lost == 0 ==> s == Iterations(i, s0, taken))
    && (!i.out && |s0.input| >= taken + lost ==> |s.input| == |s0.input| - taken - lost)
  }

  lemma NoProgress(i: Insn, s: State)
    requires Valid(s)
    ensures Progress(i, s, s, 0, 0)
  {
    hide Xr;
  }

  lemma ProgressCount(i: Insn, s0: State, s: State, taken: nat, lost: nat)
    requires Progress(i, s0, s, taken, lost)
    ensures Valid(s0) && Valid(s) && taken <= Count(i, s0)
    ensures if i.rep then Count(i, s) == Count(i, s0) - taken else Count(i, s) == Count(i, s0) == 1
  {
    hide Xr, Iterations;
  }

  /** Only INS loses values, and only where it stops. */
  lemma OnlyInput(i: Insn, plan: seq<Outcome>, count: nat)
    ensures LosesValue(i, plan, count) ==> !i.out && Reach(i, plan, count, 0) < count
  {
  }

  lemma ConsumedInput(t: State)
    ensures Consumed(t).g == t.g && |Consumed(t).input| == if |t.input| > 0 then |t.input| - 1 else 0
  {
  }

  /** One attempt more. */
  lemma MoreProgress(i: Insn, s0: State, s: State, t: State, taken: nat, lost: nat, k: nat, loses: bool)
    requires Progress(i, s0, s, taken, lost) && ValidInsn(i) && k <= Count(i, s)
    requires (!i.rep ==> taken == 0) && (loses ==> !i.out) && (i.rep || k == 0 || !loses)
    requires t == if loses then Consumed(Iterations(i, s, k)) else Iterations(i, s, k)
    ensures Progress(i, s0, t, taken + k, lost + if loses then 1 else 0)
  {
    hide Iteration, Xr;
    if i.rep { CountAfter(i, s, k); }
    IterationsAdd(i, s0, taken, k);
    TakesOneEach(i, s, k);
    ConsumedInput(Iterations(i, s, k));
    SameCount(i, Iterations(i, s, k));
  }

  /** All iterations done: the uninterrupted state if and only if nothing was lost. */
  lemma ProgressEnds(i: Insn, s0: State, s: State, taken: nat, lost: nat, attempts: nat)
    requires Progress(i, s0, s, taken, lost) && taken == Count(i, s0) && lost <= attempts
    ensures lost == 0 ==> s == Whole(i, s0)
    ensures |s0.input| >= Count(i, s0) + attempts ==> (s == Whole(i, s0) <==> lost == 0)
  {
    hide Iteration, Xr;
    TakesOneEach(i, s0, taken);
  }

  /** One byte read from port 0 to address 0, with 7 and 9 waiting there. */
  const IN_BYTE := Insn(false, 1, 4, false, false, 0)
  const WAITING := State([0, 0, 0, 0, 0, 0, 0, 0], map[], [7, 9], [])

  /** A store fault loses the 7: restarted, the instruction finishes with 9 in memory. */
  lemma StoreFaultLosesByte()
    ensures Valid(WAITING) && ValidInsn(IN_BYTE) && Count(IN_BYTE, WAITING) == 1
    ensures Finishes(IN_BYTE, 1, [[NoStore], []]) && Lost(IN_BYTE, 1, [[NoStore], []]) == 1
    ensures var t := Attempt(IN_BYTE, WAITING, [NoStore]);
      && Valid(t) && Attempt(IN_BYTE, t, []).mem == map[0 := 9] && Attempt(IN_BYTE, t, []).input == []
    ensures Whole(IN_BYTE, WAITING).mem == map[0 := 7] && Whole(IN_BYTE, WAITING).input == [9]
  {
    hide SetXr;
    var i, t := IN_BYTE, Attempt(IN_BYTE, WAITING, [NoStore]);
    FaultReaches(i);
    assert [[NoStore], []][1..] == [[]];
    assert WAITING.input[1..] == [9] && [9][1..] == [];
    assert Iterations(i, WAITING, 0) == WAITING;
    assert t == WAITING.(input := [9]);
    OneIteration(i, WAITING);
    OneIteration(i, t);
  }

  lemma FaultReaches(i: Insn)
    requires !i.out
    ensures Reach(i, [NoStore], 1, 0) == 0 && Reach(i, [], 1, 0) == 1
  {
  }

  lemma OneIteration(i: Insn, s: State)
    requires Valid(s) && i == IN_BYTE && s.g == WAITING.g && s.mem == map[] && s.input != [] && s.input[0] < 256
    ensures Iterations(i, s, 1).mem == map[0 := s.input[0]] && Iterations(i, s, 1).input == s.input[1..]
  {
    hide SetXr;
    var t := Iteration(i, s);
    assert Iterations(i, t, 0) == t;
    assert Store(map[0 := s.input[0] % 256], 1, 0, s.input[0] / 256) == map[0 := s.input[0]];
  }

  lemma SameCount(i: Insn, t: State)
    requires Valid(t)
    ensures Valid(Consumed(t)) && Count(i, Consumed(t)) == Count(i, t)
  {
  }

  lemma AttemptsEnd(i: Insn, count: nat, plans: seq<seq<Outcome>>)
    ensures Lost(i, count, plans[|plans|..]) == 0 && !Finishes(i, count, plans[|plans|..]) && plans[0..] == plans
  {
  }

  lemma AttemptsStep(i: Insn, count: nat, plans: seq<seq<Outcome>>, a: nat)
    requires a < |plans|
    ensures var k := Reach(i, plans[a], count, 0); var rest := if i.rep then count - k else count;
      && (k == count ==> Finishes(i, count, plans[a..]) && Lost(i, count, plans[a..]) == 0 && !LosesValue(i, plans[a], count))
      && (k != count ==>
            && (Finishes(i, count, plans[a..]) <==> Finishes(i, rest, plans[a + 1..]))
            && Lost(i, count, plans[a..]) == (if LosesValue(i, plans[a], count) then 1 else 0) + Lost(i, rest, plans[a + 1..]))
  {
    hide Reach;
    assert plans[a..][1..] == plans[a + 1..];
  }
}
