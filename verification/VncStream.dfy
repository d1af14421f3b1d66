/** The updates of a VNC session as the viewer reads them: nothing separates one from the next but the
    rectangle count in its header. */
module VncStream {
  import opened Runs
  import opened VncUpdate
  import opened VncSession

  datatype Item = Header(count: int) | NewSize | Pixels(raw: RawRect)

  function Body(m: Message): (b: seq<Item>)
    ensures |b| == |m.rects| + (if m.resize then 1 else 0) && forall i :: 0 <= i < |b| ==> !b[i].Header?
  {
    (if m.resize then [NewSize] else []) + seq(|m.rects|, i requires 0 <= i < |m.rects| => Pixels(m.rects[i]))
  }

  /** What the server sends: every rectangle, whatever the header says. */
  function Stream(ms: seq<Message>): seq<Item>
    decreases |ms|
  {
    if ms == [] then [] else [Header(ms[0].count)] + Body(ms[0]) + Stream(ms[1..])
  }

  /** What the viewer makes of it: as many rectangles as each header says, then the next header.
      None when something else stands where a header should. */
  function Messages(items: seq<Item>): Option<seq<seq<Item>>>
    decreases |items|
  {
    if items == [] then Some([])
    else if !items[0].Header? || !(0 <= items[0].count < |items|) then None
    else match Messages(items[1 + items[0].count..])
      case None => None
      case Some(rest) => Some([items[1..1 + items[0].count]] + rest)
  }

  function Bodies(ms: seq<Message>): seq<seq<Item>>
    decreases |ms|
  {
    if ms == [] then [] else [Body(ms[0])] + Bodies(ms[1..])
  }

  predicate Counted(ms: seq<Message>) { forall i :: 0 <= i < |ms| ==> ms[i].count == |Body(ms[i])| % 0x10000 }

  predicate AllFit(ms: seq<Message>) { forall i :: 0 <= i < |ms| ==> CountFits(ms[i]) }

  /** Reading one message off the front. */
  lemma ReadOne(count: int, b: seq<Item>, rest: seq<Item>)
    requires 0 <= count <= |b| && forall i :: 0 <= i < |b| ==> !b[i].Header?
    ensures count == |b| ==>
      (Messages([Header(count)] + b + rest) == match Messages(rest) case None => None case Some(r) => Some([b] + r))
    ensures count < |b| ==> Messages([Header(count)] + b + rest).None?
  {
    var items := [Header(count)] + b + rest;
    if count == |b| {
      assert items[1..1 + count] == b && items[1 + count..] == rest;
    } else {
      LeftOver(items[1 + count..], b[count]);
    }
  }

  lemma LeftOver(items: seq<Item>, first: Item)
    requires items != [] && items[0] == first && !first.Header?
    ensures Messages(items).None?
  {
  }

  /** The viewer reads the messages that were sent if all their counts fit; otherwise it loses its place
      for good. */
  lemma {:induction false} StreamReadExactly(ms: seq<Message>)
    requires Counted(ms)
    ensures AllFit(ms) ==> Messages(Stream(ms)) == Some(Bodies(ms))
    ensures !AllFit(ms) ==> Messages(Stream(ms)).None?
    decreases |ms|
  {
    hide Body, Messages, CountFits;
    if ms == [] {
      NothingRead();
    } else {
      StreamReadExactly(ms[1..]);
      CountOf(ms[0]);
      ReadOne(ms[0].count, Body(ms[0]), Stream(ms[1..]));
      if CountFits(ms[0]) { FirstFits(ms); }
    }
  }

  lemma NothingRead()
    ensures Messages([]) == Some([])
  {
  }

  lemma CountOf(m: Message)
    requires m.count == |Body(m)| % 0x10000
    ensures 0 <= m.count <= |Body(m)| && (CountFits(m) <==> m.count == |Body(m)|)
  {
  }

  lemma FirstFits(ms: seq<Message>)
    requires ms != [] && CountFits(ms[0])
    ensures AllFit(ms) <==> AllFit(ms[1..])
  {
    hide CountFits;
    if AllFit(ms[1..]) {
      forall i | 0 <= i < |ms| ensures CountFits(ms[i]) { if i > 0 { assert CountFits(ms[1..][i - 1]); } }
    }
  }

  /** The updates sent by the first k steps of a session. */
  function Updates(steps: seq<Step>, k: nat): seq<Message>
    requires k <= |steps|
    decreases k
  {
    if k == 0 then [] else Updates(steps, k - 1) + if steps[k - 1].Finish? then [steps[k - 1].message] else []
  }

  /** At every moment of a session: its updates all fitted if and only if the viewer can read them all. */
  lemma SessionRead(trace: seq<State>, steps: seq<Step>, native: PixFmt, k: nat)
    requires Run(trace, steps) && Initial(trace[0], native) && k < |trace|
    ensures k <= |steps| && (trace[k].exact <==> Messages(Stream(Updates(steps, k))) == Some(Bodies(Updates(steps, k))))
  {
    hide Enabled, Next, Initial, Stream, Messages, Bodies, Updates;
    SessionFits(trace, steps, native, k);
    StreamReadExactly(Updates(steps, k));
  }

  lemma {:induction false} SessionFits(trace: seq<State>, steps: seq<Step>, native: PixFmt, k: nat)
    requires Run(trace, steps) && Initial(trace[0], native) && k < |trace|
    ensures k <= |steps| && Counted(Updates(steps, k)) && (trace[k].exact <==> AllFit(Updates(steps, k)))
    decreases k
  {
    hide Enabled, Next, CountFits, Body, Shows, Initial;
    if k == 0 {
      StartsExact(trace[0], native);
    } else {
      SessionFits(trace, steps, native, k - 1);
      OneUpdate(trace[k - 1], steps[k - 1]);
      assert trace[k] == Next(trace[k - 1], steps[k - 1]);
      if steps[k - 1].Finish? {
        OneMore(Updates(steps, k - 1), steps[k - 1].message);
      } else {
        assert Updates(steps, k) == Updates(steps, k - 1);
      }
    }
  }

  lemma OneMore(ms: seq<Message>, m: Message)
    requires Counted(ms) && m.count == |Body(m)| % 0x10000
    ensures Counted(ms + [m]) && (AllFit(ms + [m]) <==> AllFit(ms) && CountFits(m))
  {
    hide CountFits, Body;
    var all := ms + [m];
    if AllFit(all) {
      assert all[|ms|] == m;
      forall i | 0 <= i < |ms| ensures CountFits(ms[i]) { assert all[i] == ms[i]; }
    }
  }

  lemma StartsExact(s: State, native: PixFmt)
    requires Initial(s, native)
    ensures s.exact
  {
  }

  lemma OneUpdate(s: State, step: Step)
    requires Enabled(s, step)
    ensures !step.Finish? ==> Next(s, step).exact == s.exact
    ensures step.Finish? ==>
      var m := step.message;
      m.count == |Body(m)| % 0x10000 && Next(s, step).exact == (s.exact && CountFits(m))
  {
    hide RectsOf, Copies, Shows, Receive, Tiles, RowMax;
  }
}
