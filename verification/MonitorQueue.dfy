/** The monitor's command queue (core/src/monitor.c): any number of producers, timed waiters,
    one poller, and the output captured for one QMP client. */
module MonitorQueue {
  import opened Runs

  type Text = seq<char>

  const QUEUE_SIZE: nat := 32
  const LINE_MAX: nat := 256

  datatype Kind = Cmd | Line | Fn
  datatype Entry = Entry(kind: Kind, capture: bool, number: nat, text: Text)

  /** An entry that ran, and all it printed while it ran. */
  datatype Ran = Ran(entry: Entry, text: Text)

  /** The monitor; with, as history, all entries ever queued, those that ran, and what the one in
      flight has printed since it was taken. */
  datatype State = State(queue: seq<Entry>, flight: Option<Entry>, nextSeq: nat, doneSeq: nat,
                         capturing: bool, captured: Text, waiting: Option<nat>,
                         queued: seq<Entry>, ran: seq<Ran>, printing: Text)

  /** Steps, each one stretch under the lock: a producer queues an entry (the capturing client asks
      for a line's output), the poller takes one, prints and finishes it, the client stops waiting. */
  datatype Step =
    | Enqueue(kind: Kind, text: Text)
    | Ask(text: Text)
    | Take
    | Print(text: Text)
    | Finish
    | Collect
    | GiveUp

  function Full(s: State): bool { |s.queue| == QUEUE_SIZE - 1 }

  function Cut(t: Text): Text { if |t| < LINE_MAX then t else t[..LINE_MAX - 1] }

  function Push(s: State, kind: Kind, capture: bool, text: Text): State {
    if Full(s) then s
    else
      var e := Entry(kind, capture, s.nextSeq + 1, text);
      s.(queue := s.queue + [e], nextSeq := s.nextSeq + 1, queued := s.queued + [e])
  }

  predicate Enabled(s: State, step: Step) {
    match step
    case Ask(_) => s.waiting.None?
    case Take => s.flight.None? && s.queue != []
    case Print(_) => s.flight.Some?
    case Finish => s.flight.Some?
    case Collect => s.waiting.Some? && s.doneSeq >= s.waiting.value
    case GiveUp => s.waiting.Some? && s.doneSeq < s.waiting.value
    case Enqueue(_, _) => true
  }

  function Next(s: State, step: Step): State
    requires Enabled(s, step)
  {
    match step
    case Enqueue(kind, text) => Push(s, kind, false, text)
    case Ask(text) =>
      if Full(s) then s else Push(s, Line, true, text).(waiting := Some(s.nextSeq + 1))
    case Take =>
      var e := s.queue[0];
      s.(queue := s.queue[1..], flight := Some(e), printing := [],
         capturing := e.capture || s.capturing, captured := if e.capture then [] else s.captured)
    case Print(text) =>
      s.(printing := s.printing + text, captured := if s.capturing then s.captured + text else s.captured)
    case Finish =>
      var n := s.flight.value.number;
      s.(flight := None, capturing := false, doneSeq := if n > s.doneSeq then n else s.doneSeq,
         ran := s.ran + [Ran(s.flight.value, s.printing)], printing := [])
    case Collect => s.(waiting := None, captured := [])
    case GiveUp => s.(waiting := None)
  }

  function Initial(): State { State([], None, 0, 0, false, [], None, [], [], []) }

  // ------------------------------------------------------------------ invariant

  function InFlight(s: State): seq<Entry> { if s.flight.Some? then [s.flight.value] else [] }

  /** Everything queued was dispatched, is in flight, or waits, in that order and numbered in it. */
  predicate Accounts(s: State) {
    && (forall i :: 0 <= i < |s.queued| ==> s.queued[i].number == i + 1)
    && s.nextSeq == |s.queued| && s.doneSeq == |s.ran| <= |s.queued|
    && (forall i :: 0 <= i < |s.ran| ==> s.ran[i].entry == s.queued[i])
    && s.queued[s.doneSeq..] == InFlight(s) + s.queue
    && |s.queue| < QUEUE_SIZE
  }

  /** The captured text is that of the last capturing entry begun, unless it was collected. */
  predicate CaptureInv(s: State)
    requires Accounts(s)
  {
    && (s.capturing <==> s.flight.Some? && s.flight.value.capture)
    && (s.capturing ==> s.captured == s.printing)
    && (s.waiting.Some? ==>
          var k := s.waiting.value;
          && 0 < k <= |s.queued| && s.queued[k - 1].capture
          && (forall i :: k <= i < |s.queued| ==> !s.queued[i].capture)
          && (k <= s.doneSeq ==> s.captured == s.ran[k - 1].text))
  }

  predicate Inv(s: State) { Accounts(s) && CaptureInv(s) }

  lemma InvInit()
    ensures Inv(Initial())
  {
  }

  lemma AccountsNext(s: State, step: Step)
    requires Accounts(s) && Enabled(s, step)
    ensures Accounts(Next(s, step))
  {
    hide Accounts, Push;
    match step {
      case Enqueue(kind, text) => PushAccounts(s, kind, false, text);
      case Ask(text) =>
        PushAccounts(s, Line, true, text);
        if !Full(s) { SameAccounts(Push(s, Line, true, text), Next(s, step)); }
      case Take => TakeAccounts(s);
      case Finish => FinishAccounts(s);
      case _ => SameAccounts(s, Next(s, step));
    }
  }

  lemma SameAccounts(s: State, t: State)
    requires Accounts(s) && t.queued == s.queued && t.ran == s.ran && t.queue == s.queue && t.flight == s.flight
    requires t.nextSeq == s.nextSeq && t.doneSeq == s.doneSeq
    ensures Accounts(t)
  {
  }

  lemma TakeAccounts(s: State)
    requires Accounts(s) && Enabled(s, Take)
    ensures Accounts(Next(s, Take))
  {
    assert InFlight(Next(s, Take)) + Next(s, Take).queue == s.queue;
  }

  lemma FinishAccounts(s: State)
    requires Accounts(s) && Enabled(s, Finish)
    ensures Accounts(Next(s, Finish))
  {
    Head(s);
    assert s.queued[s.doneSeq + 1..] == s.queued[s.doneSeq..][1..] == s.queue;
  }

  lemma PushAccounts(s: State, kind: Kind, capture: bool, text: Text)
    requires Accounts(s)
    ensures Accounts(Push(s, kind, capture, text))
  {
    var t := Push(s, kind, capture, text);
    if !Full(s) {
      assert t.queued[s.doneSeq..] == s.queued[s.doneSeq..] + [t.queued[|s.queued|]];
      assert InFlight(t) + t.queue == InFlight(s) + s.queue + [t.queued[|s.queued|]];
    }
  }

  lemma PushCapture(s: State, kind: Kind, text: Text)
    requires Inv(s)
    ensures Inv(Push(s, kind, false, text))
  {
    PushAccounts(s, kind, false, text);
  }

  lemma AskCapture(s: State, text: Text)
    requires Inv(s) && Enabled(s, Ask(text))
    ensures Inv(Next(s, Ask(text)))
  {
    AccountsNext(s, Ask(text));
  }

  lemma TakeCapture(s: State)
    requires Inv(s) && Enabled(s, Take)
    ensures Inv(Next(s, Take))
  {
    AccountsNext(s, Take);
    Head(s);
  }

  lemma FinishCapture(s: State)
    requires Inv(s) && Enabled(s, Finish)
    ensures Inv(Next(s, Finish))
  {
    AccountsNext(s, Finish);
    Head(s);
    var t := Next(s, Finish);
    assert t.doneSeq == s.doneSeq + 1 && t.ran == s.ran + [Ran(s.flight.value, s.printing)];
  }

  lemma SmallCapture(s: State, step: Step)
    requires Inv(s) && Enabled(s, step) && (step.Print? || step.Collect? || step.GiveUp?)
    ensures Inv(Next(s, step))
  {
    AccountsNext(s, step);
    Head(s);
  }

  /** The entry in flight, or next to be taken, is the one numbered after those done. */
  lemma Head(s: State)
    requires Accounts(s)
    ensures s.flight.Some? ==> s.doneSeq < |s.queued| && s.queued[s.doneSeq] == s.flight.value
    ensures s.flight.None? && s.queue != [] ==> s.doneSeq < |s.queued| && s.queued[s.doneSeq] == s.queue[0]
  {
    if InFlight(s) + s.queue != [] { assert s.queued[s.doneSeq..][0] == s.queued[s.doneSeq]; }
  }

  // ----------------------------------------------------------------------- runs

  predicate Run(trace: seq<State>, steps: seq<Step>) {
    && |trace| == |steps| + 1 && trace[0] == Initial()
    && forall i :: 0 <= i < |steps| ==> Enabled(trace[i], steps[i]) && trace[i + 1] == Next(trace[i], steps[i])
  }

  lemma {:induction false} RunInv(trace: seq<State>, steps: seq<Step>, k: nat)
    requires Run(trace, steps) && k < |trace|
    ensures Inv(trace[k])
    decreases k
  {
    hide Inv, Enabled, Next;
    if k == 0 {
      InvInit();
    } else {
      RunInv(trace, steps, k - 1);
      InvNext(trace[k - 1], steps[k - 1]);
    }
  }

  lemma InvNext(s: State, step: Step)
    requires Inv(s) && Enabled(s, step)
    ensures Inv(Next(s, step))
  {
    hide Inv, Push;
    match step {
      case Enqueue(kind, text) => PushCapture(s, kind, text);
      case Ask(text) => AskCapture(s, text);
      case Take => TakeCapture(s);
      case Finish => FinishCapture(s);
      case _ => SmallCapture(s, step);
    }
  }

  /** What was handed out but not done is queued or in flight; it never exceeds the ring. */
  lemma Outstanding(trace: seq<State>, steps: seq<Step>, k: nat)
    requires Run(trace, steps) && k < |trace|
    ensures var s := trace[k]; s.nextSeq - s.doneSeq == |s.queue| + |InFlight(s)| <= QUEUE_SIZE
  {
    hide Run;
    RunInv(trace, steps, k);
    assert |trace[k].queued[trace[k].doneSeq..]| == |InFlight(trace[k]) + trace[k].queue|;
  }

  /** Entries run once each, in the order they were queued: what ran is, entry by entry, the first
      doneSeq of those queued, and neither list ever changes but by growing. */
  lemma {:induction false} RunsInOrder(trace: seq<State>, steps: seq<Step>, i: nat, k: nat)
    requires Run(trace, steps) && i <= k < |trace|
    ensures var s, t := trace[i], trace[k];
      && s.queued <= t.queued && s.ran <= t.ran && |t.ran| == t.doneSeq <= |t.queued|
      && (forall n :: 0 <= n < |t.queued| ==> t.queued[n].number == n + 1)
      && (forall n :: 0 <= n < |t.ran| ==> t.ran[n].entry == t.queued[n])
    decreases k
  {
    hide Run, Enabled, Next, CaptureInv;
    RunInv(trace, steps, k);
    if i < k {
      RunsInOrder(trace, steps, i, k - 1);
      StepOf(trace, steps, k - 1);
      HistoryGrows(trace[k - 1], steps[k - 1]);
    }
  }

  lemma StepOf(trace: seq<State>, steps: seq<Step>, k: nat)
    requires Run(trace, steps) && k + 1 < |trace|
    ensures |trace| == |steps| + 1 && Enabled(trace[k], steps[k]) && trace[k + 1] == Next(trace[k], steps[k])
  {
    hide Enabled, Next;
  }

  lemma HistoryGrows(s: State, step: Step)
    requires Enabled(s, step)
    ensures s.queued <= Next(s, step).queued && s.ran <= Next(s, step).ran
  {
  }

  /** The entry of number n ran. */
  predicate HasRun(s: State, e: Entry) { exists j :: 0 <= j < |s.ran| && s.ran[j].entry == e }

  /** A producer that got number n finds n done exactly when the very entry it queued has run; a
      producer refused for a full queue left nothing behind. */
  lemma OutcomeMeans(trace: seq<State>, steps: seq<Step>, i: nat, k: nat, capture: bool, kind: Kind, text: Text)
    requires Run(trace, steps) && i < k < |trace|
    requires if capture then steps[i] == Ask(text) && kind == Line else steps[i] == Enqueue(kind, text)
    ensures Full(trace[i]) ==> trace[i + 1] == trace[i]
    ensures !Full(trace[i]) ==>
      var n := trace[i].nextSeq + 1; var e := Entry(kind, capture, n, text);
      && (trace[k].doneSeq >= n <==> HasRun(trace[k], e))
      && (trace[k].doneSeq >= n ==> n <= |trace[k].ran| && trace[k].ran[n - 1].entry == e)
  {
    hide Run, Enabled, CaptureInv, Cut;
    RunInv(trace, steps, i);
    StepOf(trace, steps, i);
    RunsInOrder(trace, steps, i + 1, k);
    if !Full(trace[i]) {
      var n := trace[i].nextSeq + 1;
      var e := Entry(kind, capture, n, text);
      assert trace[i + 1].queued[n - 1] == e && trace[k].queued[n - 1] == e;
      if trace[k].doneSeq >= n { assert trace[k].ran[n - 1].entry == e; }
    }
  }

  lemma CollectsWaited(s: State)
    requires Inv(s) && Enabled(s, Collect)
    ensures var n := s.waiting.value; 0 < n <= |s.ran| && s.captured == s.ran[n - 1].text
  {
  }

  /** What the capturing client collects is exactly what the entry of its own request printed while it
      ran, whatever timed out before. */
  lemma CollectsItsOutput(trace: seq<State>, steps: seq<Step>, i: nat, k: nat)
    requires Run(trace, steps) && i < k < |steps| && steps[i].Ask? && !Full(trace[i]) && steps[k] == Collect
    requires forall j :: i < j < k ==> !steps[j].Ask? && !steps[j].Collect? && !steps[j].GiveUp?
    ensures var n := trace[i].nextSeq + 1;
      && n <= |trace[k].ran|
      && trace[k].ran[n - 1] == Ran(Entry(Line, true, n, steps[i].text), trace[k].captured)
  {
    hide Run, Enabled, Inv, HasRun, Next;
    RunSize(trace, steps);
    WaitsForItsRequest(trace, steps, i, k);
    OutcomeMeans(trace, steps, i, k, true, Line, steps[i].text);
    RunInv(trace, steps, k);
    StepOf(trace, steps, k);
    CollectsWaited(trace[k]);
    RunsInOrder(trace, steps, k, k);
  }

  lemma RunSize(trace: seq<State>, steps: seq<Step>)
    requires Run(trace, steps)
    ensures |trace| == |steps| + 1
  {
    hide Enabled, Next;
  }

  /** The client only ever waits for the number its last request was given. */
  lemma {:induction false} WaitsForItsRequest(trace: seq<State>, steps: seq<Step>, i: nat, k: nat)
    requires Run(trace, steps) && i < k < |trace| && steps[i].Ask? && !Full(trace[i])
    requires forall j :: i < j < k ==> !steps[j].Ask? && !steps[j].Collect? && !steps[j].GiveUp?
    ensures trace[k].waiting == Some(trace[i].nextSeq + 1)
    decreases k
  {
    hide Run, Enabled;
    StepOf(trace, steps, k - 1);
    if k > i + 1 { WaitsForItsRequest(trace, steps, i, k - 1); }
  }

  // ---------------------------------------------------------------- the ring

  function Ring(slots: seq<Entry>, head: nat, tail: nat): seq<Entry>
    requires head < |slots| && tail < |slots|
  {
    if head <= tail then slots[head..tail] else slots[head..] + slots[..tail]
  }

  lemma NextSlot(i: nat)
    requires i < QUEUE_SIZE
    ensures (i + 1) % QUEUE_SIZE == if i + 1 == QUEUE_SIZE then 0 else i + 1
  {
  }

  lemma RingSize(slots: seq<Entry>, head: nat, tail: nat)
    requires |slots| == QUEUE_SIZE && head < QUEUE_SIZE && tail < QUEUE_SIZE
    ensures |Ring(slots, head, tail)| == if head <= tail then tail - head else QUEUE_SIZE - head + tail
  {
  }

  lemma RingPush(slots: seq<Entry>, head: nat, tail: nat, e: Entry)
    requires |slots| == QUEUE_SIZE && head < QUEUE_SIZE && tail < QUEUE_SIZE
    ensures (tail + 1) % QUEUE_SIZE == head <==> |Ring(slots, head, tail)| == QUEUE_SIZE - 1
    ensures (tail + 1) % QUEUE_SIZE != head ==>
      Ring(slots[tail := e], head, (tail + 1) % QUEUE_SIZE) == Ring(slots, head, tail) + [e]
  {
    hide Ring;
    NextSlot(tail);
    RingSize(slots, head, tail);
    if head <= tail && tail + 1 < QUEUE_SIZE { StraightPush(slots, head, tail, e); }
    if head <= tail && tail + 1 == QUEUE_SIZE && head != 0 { TurningPush(slots, head, tail, e); }
    if tail < head && tail + 1 != head { WrappedPush(slots, head, tail, e); }
  }

  lemma StraightPush(slots: seq<Entry>, head: nat, tail: nat, e: Entry)
    requires |slots| == QUEUE_SIZE && head <= tail && tail + 1 < QUEUE_SIZE
    ensures Ring(slots[tail := e], head, tail + 1) == Ring(slots, head, tail) + [e]
  {
    assert slots[tail := e][head..tail + 1] == slots[head..tail] + [e];
  }

  lemma TurningPush(slots: seq<Entry>, head: nat, tail: nat, e: Entry)
    requires |slots| == QUEUE_SIZE && 0 < head <= tail && tail + 1 == QUEUE_SIZE
    ensures Ring(slots[tail := e], head, 0) == Ring(slots, head, tail) + [e]
  {
    assert slots[tail := e][head..] == slots[head..tail] + [e];
    assert slots[tail := e][..0] == [];
  }

  lemma WrappedPush(slots: seq<Entry>, head: nat, tail: nat, e: Entry)
    requires |slots| == QUEUE_SIZE && tail + 1 < head < QUEUE_SIZE
    ensures Ring(slots[tail := e], head, tail + 1) == Ring(slots, head, tail) + [e]
  {
    var u := slots[tail := e];
    assert u[head..] == slots[head..] && u[..tail + 1] == slots[..tail] + [e];
    assert slots[head..] + (slots[..tail] + [e]) == slots[head..] + slots[..tail] + [e];
  }

  lemma RingPop(slots: seq<Entry>, head: nat, tail: nat)
    requires |slots| == QUEUE_SIZE && head < QUEUE_SIZE && tail < QUEUE_SIZE
    ensures head == tail <==> Ring(slots, head, tail) == []
    ensures head != tail ==> Ring(slots, head, tail) == [slots[head]] + Ring(slots, (head + 1) % QUEUE_SIZE, tail)
  {
    hide Ring;
    NextSlot(head);
    RingSize(slots, head, tail);
    if head < tail { StraightPop(slots, head, tail); }
    if tail < head && head + 1 < QUEUE_SIZE { WrappedPop(slots, head, tail); }
    if tail < head && head + 1 == QUEUE_SIZE { TurningPop(slots, head, tail); }
  }

  lemma StraightPop(slots: seq<Entry>, head: nat, tail: nat)
    requires |slots| == QUEUE_SIZE && head < tail < QUEUE_SIZE
    ensures Ring(slots, head, tail) == [slots[head]] + Ring(slots, head + 1, tail)
  {
    assert slots[head..tail] == [slots[head]] + slots[head + 1..tail];
  }

  lemma WrappedPop(slots: seq<Entry>, head: nat, tail: nat)
    requires |slots| == QUEUE_SIZE && tail < head && head + 1 < QUEUE_SIZE
    ensures Ring(slots, head, tail) == [slots[head]] + Ring(slots, head + 1, tail)
  {
    assert slots[head..] == [slots[head]] + slots[head + 1..];
    assert ([slots[head]] + slots[head + 1..]) + slots[..tail] == [slots[head]] + (slots[head + 1..] + slots[..tail]);
  }

  lemma TurningPop(slots: seq<Entry>, head: nat, tail: nat)
    requires |slots| == QUEUE_SIZE && tail < head && head + 1 == QUEUE_SIZE
    ensures Ring(slots, head, tail) == [slots[head]] + Ring(slots, 0, tail)
  {
    assert slots[head..] == [slots[head]] && slots[0..tail] == slots[..tail];
  }

  /** The monitor's fields; the ring holds slots head up to tail, and is full with one slot empty. */
  class Monitor {
    const slots: array<Entry>
    var head: nat
    var tail: nat
    var nextSeq: nat
    var doneSeq: nat
    var capturing: bool
    const output: Capture
    ghost var model: State

    /** The fields are those of the state machine. */
    ghost predicate Tracks()
      reads this, slots, output, output.Footprint()
    {
      && Valid() && model.queue == Queue() && model.nextSeq == nextSeq && model.doneSeq == doneSeq
      && model.capturing == capturing && model.captured == output.Text()
    }

    ghost predicate Valid()
      reads this, slots, output, output.Footprint()
    {
      slots.Length == QUEUE_SIZE && head < QUEUE_SIZE && tail < QUEUE_SIZE && output.Valid()
    }

    function Queue(): seq<Entry>
      requires slots.Length == QUEUE_SIZE && head < QUEUE_SIZE && tail < QUEUE_SIZE
      reads this, slots
    {
      Ring(slots[..], head, tail)
    }

    constructor ()
      ensures Tracks() && model == Initial()
      ensures fresh(slots) && fresh(output) && fresh(output.Footprint())
    {
      slots := new Entry[QUEUE_SIZE](i => Entry(Cmd, false, 0, []));
      head, tail, nextSeq, doneSeq, capturing := 0, 0, 0, 0, false;
      output := new Capture();
      model := Initial();
    }

    /** Any producer's turn. */
    method Submit(kind: Kind, text: Text) returns (number: nat)
      requires Tracks()
      modifies this, slots
      ensures Tracks() && model == Next(old(model), Enqueue(kind, Cut(text)))
      ensures number == if Full(old(model)) then 0 else old(model).nextSeq + 1
    {
      hide Ring, Cut;
      number := EnqueueEntry(kind, text, false);
      model := Next(model, Enqueue(kind, Cut(text)));
    }

    /** The capturing client's turn: its line goes into the queue. */
    method AskLine(text: Text) returns (number: nat)
      requires Tracks() && model.waiting.None?
      modifies this, slots
      ensures Tracks() && model == Next(old(model), Ask(Cut(text)))
      ensures number == if Full(old(model)) then 0 else old(model).nextSeq + 1
    {
      hide Ring, Cut;
      number := EnqueueEntry(Line, text, true);
      model := Next(model, Ask(Cut(text)));
    }

    /** The end of its wait, whether the entry is done or time is up. */
    method EndWait(number: nat) returns (done: bool, out: Text)
      requires Tracks() && model.waiting == Some(number)
      modifies this, output, output.Footprint()
      ensures Tracks() && fresh(output.Footprint() - old(output.Footprint()))
      ensures done == (old(model).doneSeq >= number)
      ensures model == Next(old(model), if done then Collect else GiveUp)
      ensures done ==> out == old(model).captured
    {
      hide Ring;
      done, out := doneSeq >= number, [];
      model := Next(model, if done then Collect else GiveUp);
      if done { out := output.TakeText(); }
    }

    /** The poller's three turns around running an entry. */
    method PollTake() returns (e: Option<Entry>)
      requires Tracks() && model.flight.None?
      modifies this, output, output.Footprint()
      ensures Tracks() && fresh(output.Footprint() - old(output.Footprint()))
      ensures e.None? <==> old(model).queue == []
      ensures model == if e.None? then old(model) else Next(old(model), Take)
      ensures model.flight == e
    {
      hide Ring;
      e := TakeEntry();
      if e.Some? { model := Next(model, Take); }
    }

    method PollPrint(text: Text)
      requires Tracks() && model.flight.Some?
      modifies this, output, output.Footprint()
      ensures Tracks() && fresh(output.Footprint() - old(output.Footprint()))
      ensures model == Next(old(model), Print(text))
    {
      hide Ring;
      PrintText(text);
      model := Next(model, Print(text));
    }

    method PollFinish(e: Entry)
      requires Tracks() && model.flight == Some(e)
      modifies this
      ensures Tracks() && model == Next(old(model), Finish)
    {
      hide Ring;
      FinishEntry(e);
      model := Next(model, Finish);
    }

    /** Queues an entry; number 0 says the queue was full. */
    method EnqueueEntry(kind: Kind, text: Text, capture: bool) returns (number: nat)
      requires Valid()
      modifies this`tail, this`nextSeq, slots
      ensures Valid()
      ensures number == if |old(Queue())| == QUEUE_SIZE - 1 then 0 else old(nextSeq) + 1
      ensures if number == 0 then Queue() == old(Queue()) && nextSeq == old(nextSeq)
              else Queue() == old(Queue()) + [Entry(kind, capture, number, Cut(text))] && nextSeq == number
    {
      hide Ring;
      RingPush(slots[..], head, tail, Entry(kind, capture, nextSeq + 1, Cut(text)));
      number := 0;
      var next := (tail + 1) % QUEUE_SIZE;
      if next != head {
        nextSeq := nextSeq + 1;
        number := nextSeq;
        ghost var before := slots[..];
        slots[tail] := Entry(kind, capture, number, Cut(text));
        assert slots[..] == before[tail := slots[tail]];
        tail := next;
      }
    }

    /** The poller takes the first entry, and clears the capture buffer for one that captures. */
    method TakeEntry() returns (e: Option<Entry>)
      requires Valid()
      modifies this`head, this`capturing, output, output.Footprint()
      ensures Valid() && fresh(output.Footprint() - old(output.Footprint()))
      ensures e.None? <==> old(Queue()) == []
      ensures e.None? ==> Queue() == [] && capturing == old(capturing) && output.Text() == old(output.Text())
      ensures e.Some? ==>
        && old(Queue()) == [e.value] + Queue() && capturing == (e.value.capture || old(capturing))
        && output.Text() == if e.value.capture then [] else old(output.Text())
    {
      hide Ring;
      RingPop(slots[..], head, tail);
      if head == tail { return None; }
      var entry := slots[head];
      head := (head + 1) % QUEUE_SIZE;
      if entry.capture {
        output.Clear();
        capturing := true;
      }
      e := Some(entry);
    }

    method PrintText(text: Text)
      requires Valid()
      modifies output, output.Footprint()
      ensures Valid() && fresh(output.Footprint() - old(output.Footprint()))
      ensures output.Text() == if capturing then old(output.Text()) + text else old(output.Text())
    {
      if capturing { output.Append(text); }
    }

    method FinishEntry(e: Entry)
      requires Valid()
      modifies this`doneSeq, this`capturing
      ensures Valid() && !capturing && doneSeq == if e.number > old(doneSeq) then e.number else old(doneSeq)
    {
      capturing := false;
      if e.number > doneSeq { doneSeq := e.number; }
    }
  }

  /** The capture buffer: NUL-terminated, doubled when it is too small. */
  class Capture {
    var buf: array?<char>
    var len: nat

    ghost function Footprint(): set<object>
      reads this
    {
      if buf == null then {} else {buf}
    }

    ghost predicate Valid()
      reads this, Footprint()
    {
      if buf == null then len == 0 else len < buf.Length && buf[len] == '\0'
    }

    ghost function Text(): Text
      requires Valid()
      reads this, Footprint()
    {
      if buf == null then [] else buf[..len]
    }

    constructor ()
      ensures Valid() && Text() == [] && Footprint() == {}
    {
      buf, len := null, 0;
    }

    method Clear()
      modifies this
      ensures Valid() && Text() == [] && Footprint() == {}
    {
      buf, len := null, 0;
    }

    /** Hands the text over, leaving the buffer empty. */
    method TakeText() returns (t: Text)
      requires Valid()
      modifies this
      ensures Valid() && Text() == [] && Footprint() == {} && t == old(Text())
    {
      t := if buf == null then [] else buf[..len];
      buf, len := null, 0;
    }

    /** Room for n more characters and the terminator. */
    method Reserve(n: nat)
      requires Valid()
      modifies this`buf
      ensures Valid() && Text() == old(Text()) && buf != null && len + n < buf.Length
      ensures fresh(Footprint() - old(Footprint()))
    {
      var size := if buf == null then 0 else buf.Length;
      if len + n + 1 > size {
        size := if size > 0 then size else 1024;
        while len + n + 1 > size
          invariant size > 0
          decreases len + n + 1 - size
        {
          size := size * 2;
        }
        var bigger := new char[size](i requires 0 <= i reads this, Footprint() =>
          if buf != null && i < len && i < buf.Length then buf[i] else '\0');
        assert bigger[..len] == Text();
        buf := bigger;
      }
    }

    method Append(s: Text)
      requires Valid()
      modifies this, Footprint()
      ensures Valid() && Text() == old(Text()) + s && fresh(Footprint() - old(Footprint()))
    {
      Reserve(|s|);
      CopyChars(buf, len, s);
      len := len + |s|;
      buf[len] := '\0';
    }
  }

  method CopyChars(b: array<char>, n: nat, s: Text)
    requires n + |s| < b.Length
    modifies b
    ensures b[..n + |s|] == old(b[..n]) + s
  {
    for i := 0 to |s|
      invariant b[..n + i] == old(b[..n]) + s[..i]
    {
      b[n + i] := s[i];
    }
  }

  // ---------------------------------------------------------------------- the limits

  /** A line is cut to 255 characters, and 31 entries wait at most. */
  lemma Limits(s: State, t: Text)
    ensures Full(s) <==> |s.queue| == 31
    ensures Cut(t) == if |t| <= 255 then t else t[..255]
  {
  }
}
