/** A VNC client's whole session: publisher, reader and writer as interleaved steps, each one
    stretch under the server's lock (core/src/vnc.c, writer_main, reader_main, gemu_vnc_update_argb). */
module VncSession {
  import opened Runs
  import opened VncUpdate

  /** The published frame, and how often it changed. */
  datatype Server = Server(fb: Option<Frame>, frameSeq: nat)

  /** What the writer took under the lock and is sending. */
  datatype Job = Job(frame: Frame, fmt: PixFmt, full: bool, resize: bool)

  datatype Client = Client(fmt: PixFmt, desktopSize: bool, req: bool, reqFull: bool, sentSeq: nat,
                           cw: int, ch: int, alive: bool, last: Option<seq<int>>, job: Option<Job>)

  /** The server, one client of it, what the viewer shows, the updates sent to it, and whether the
      rectangle count of every one fitted its 16 bits. After one that did not, the viewer takes the
      rectangles left over for messages, and nothing is known of its screen any more. */
  datatype State = State(server: Server, client: Client, screen: seq<Sent>, log: seq<Job>, exact: bool)

  datatype Step =
    | Publish(frame: Frame)
    | SetPixelFormat(fmt: PixFmt)
    | SetEncodings(desktopSize: bool)
    | Request(incremental: bool)
    | Take
    | Finish(want: seq<int>, message: Message, blank: seq<Sent>)
    | Fail
    | Kill

  predicate SizeChanged(s: Server, c: Client) {
    s.fb.Some? && (s.fb.value.w != c.cw || s.fb.value.h != c.ch) && c.desktopSize
  }

  predicate Ready(s: Server, c: Client) {
    c.req && s.fb.Some? && (c.reqFull || SizeChanged(s, c) || s.frameSeq != c.sentSeq)
  }

  /** What send_update compares against: the screen as last sent, or a blank one to resend all. */
  function Reference(c: Client): seq<int>
    requires c.job.Some? && 0 < c.cw && 0 < c.ch
  {
    if SendsAll(c) then (Area(c.cw, c.ch); seq(c.cw * c.ch, i => 0)) else c.last.value
  }

  predicate SendsAll(c: Client)
    requires c.job.Some?
  {
    c.last.None? || c.job.value.full || c.job.value.resize
  }

  ghost predicate Enabled(s: State, step: Step) {
    var c := s.client;
    match step
    case Publish(f) => ValidFrame(f) && ValidSize(f.w, f.h)
    case Take => c.alive && c.job.None? && Ready(s.server, c)
    case Finish(want, m, blank) =>
      && c.job.Some? && 0 < c.cw && 0 < c.ch
      && Shows(want, c.job.value.frame, c.cw, c.ch) && |blank| == |want|
      && IsUpdate(m, want, Reference(c), c.cw, c.ch, c.job.value.fmt, SendsAll(c), c.job.value.resize)
    case Fail => c.job.Some? && 0 < c.cw && 0 < c.ch
    case _ => true
  }

  /** The header can say how many rectangles follow. */
  predicate CountFits(m: Message) { |m.rects| + (if m.resize then 1 else 0) <= 0xFFFF }

  function Published(s: Server, f: Frame): Server {
    if s.fb == Some(f) then s else Server(Some(f), s.frameSeq + 1)
  }

  function Taken(s: Server, c: Client): Client
    requires s.fb.Some?
  {
    var f := s.fb.value;
    c.(job := Some(Job(f, c.fmt, c.reqFull, SizeChanged(s, c))),
       cw := if SizeChanged(s, c) then f.w else c.cw, ch := if SizeChanged(s, c) then f.h else c.ch,
       req := false, reqFull := false, sentSeq := s.frameSeq)
  }

  /** A failed send ends the session; a resend has already dropped the old comparison screen. */
  function Failed(c: Client): Client
    requires c.job.Some? && 0 < c.cw && 0 < c.ch
  {
    c.(last := if SendsAll(c) then Some(Reference(c)) else c.last, job := None, alive := false)
  }

  ghost function Next(s: State, step: Step): State
    requires Enabled(s, step)
  {
    var c := s.client;
    match step
    case Publish(f) => s.(server := Published(s.server, f))
    case SetPixelFormat(fmt) => s.(client := c.(fmt := fmt, reqFull := true))
    case SetEncodings(desk) => s.(client := c.(desktopSize := desk))
    case Request(incremental) => s.(client := c.(req := true, reqFull := c.reqFull || !incremental))
    case Take => s.(client := Taken(s.server, c))
    case Finish(want, m, blank) =>
      s.(client := c.(last := Some(want), job := None),
         screen := Receive(s.screen, blank, c.cw, m),
         log := s.log + [c.job.value.(full := SendsAll(c))],
         exact := s.exact && CountFits(m))
    case Fail => s.(client := Failed(c))
    case Kill => s.(client := c.(alive := false))
  }

  /** The format of the last update received. */
  function ShownFmt(s: State): PixFmt
    requires s.log != []
  {
    s.log[|s.log| - 1].fmt
  }

  // ------------------------------------------------------------------ invariant

  predicate ServerInv(s: Server) {
    && (s.fb.Some? <==> s.frameSeq > 0)
    && (s.fb.Some? ==> ValidFrame(s.fb.value) && ValidSize(s.fb.value.w, s.fb.value.h))
  }

  /** The viewer shows what the server believes it shows, in the format of the last update. */
  predicate InStep(s: State) {
    var c := s.client;
    && |s.screen| == c.cw * c.ch
    && (c.last.None? <==> s.log == [])
    && (c.last.Some? ==> |c.last.value| == c.cw * c.ch)
    && (c.last.Some? && s.exact ==> s.screen == Image(ShownFmt(s), c.last.value))
  }

  /** Between updates: an up-to-date client shows the published frame, and a stale format is marked. */
  ghost predicate IdleInv(s: State) {
    var c := s.client;
    && InStep(s)
    && (c.last.Some? ==> c.fmt == ShownFmt(s) || c.reqFull)
    && (c.last.None? ==> c.sentSeq == 0)
    && (c.last.Some? ==> s.server.fb.Some?)
    && 0 < c.cw && 0 < c.ch
    && (c.last.Some? && c.sentSeq == s.server.frameSeq ==> Shows(c.last.value, s.server.fb.value, c.cw, c.ch))
  }

  /** While an update is on its way. */
  ghost predicate BusyInv(s: State)
    requires s.client.job.Some?
  {
    var c, j := s.client, s.client.job.value;
    && ValidFrame(j.frame) && s.server.fb.Some?
    && (c.fmt == j.fmt || c.reqFull)
    && (c.sentSeq == s.server.frameSeq ==> s.server.fb.value == j.frame)
    && (c.last.None? <==> s.log == [])
    && (!j.resize ==> InStep(s) && (c.last.Some? && !j.full ==> j.fmt == ShownFmt(s)))
  }

  /** A format change shows up only in a full update. */
  predicate FormatsFollow(log: seq<Job>) {
    forall i :: 0 < i < |log| ==> log[i].fmt == log[i - 1].fmt || log[i].full
  }

  ghost predicate Inv(s: State) {
    var c := s.client;
    && ServerInv(s.server) && ValidSize(c.cw, c.ch) && c.sentSeq <= s.server.frameSeq
    && FormatsFollow(s.log)
    && (c.alive && c.job.None? ==> IdleInv(s))
    && (c.job.Some? ==> BusyInv(s))
  }

  /** After the handshake: the frame's size, or 640 by 480, in the server's own format. */
  predicate Initial(s: State, native: PixFmt) {
    && ServerInv(s.server) && s.log == []
    && var (w, h) := if s.server.fb.Some? then (s.server.fb.value.w, s.server.fb.value.h) else (640, 480);
      && s.client == Client(native, false, false, false, 0, w, h, true, None, None)
      && |s.screen| == w * h && s.exact
  }

  lemma InvInit(s: State, native: PixFmt)
    requires Initial(s, native)
    ensures Inv(s)
  {
  }

  lemma InvPublish(s: State, f: Frame)
    requires Inv(s) && Enabled(s, Publish(f))
    ensures Inv(Next(s, Publish(f)))
  {
    hide Shows, Image, ValidFrame, ValidSize, FormatsFollow;
  }

  lemma InvTake(s: State)
    requires Inv(s) && Enabled(s, Take)
    ensures Inv(Next(s, Take))
  {
    hide Shows, Image, ValidFrame, FormatsFollow;
  }

  lemma InvSmallSteps(s: State, step: Step)
    requires Inv(s) && Enabled(s, step)
    requires step.SetPixelFormat? || step.SetEncodings? || step.Request? || step.Fail? || step.Kill?
    ensures Inv(Next(s, step))
  {
    hide Shows, Image, ValidFrame, ValidSize, FormatsFollow;
  }

  /** While every update before it fitted, a finished update leaves the viewer with exactly the (scaled)
      frame it was built from, if and only if its own rectangle count fits. */
  lemma FinishShows(s: State, want: seq<int>, m: Message, blank: seq<Sent>)
    requires Inv(s) && Enabled(s, Finish(want, m, blank)) && s.exact
    ensures Shows(want, s.client.job.value.frame, s.client.cw, s.client.ch)
    ensures Next(s, Finish(want, m, blank)).screen == Image(s.client.job.value.fmt, want) <==> CountFits(m)
  {
    hide Image, Receive, FormatsFollow, IsUpdate, Shows;
    var c, j := s.client, s.client.job.value;
    ShowsSize(want, j.frame, c.cw, c.ch);
    UpdateResize(m, want, Reference(c), c.cw, c.ch, j.fmt, SendsAll(c), j.resize);
    CountMustFit(m, want, Reference(c), c.cw, c.ch, j.fmt, SendsAll(c), j.resize, s.screen, blank);
  }

  lemma UpdateResize(m: Message, want: seq<int>, last: seq<int>, cw: int, ch: int, fmt: PixFmt, full: bool, resize: bool)
    requires IsUpdate(m, want, last, cw, ch, fmt, full, resize)
    ensures m.resize == resize
  {
    hide RectsOf, Copies, Tiles, RowMax;
  }

  lemma ShowsSize(want: seq<int>, f: Frame, cw: int, ch: int)
    requires 0 < cw && 0 < ch && Shows(want, f, cw, ch)
    ensures |want| == cw * ch
  {
  }

  /** A full update always fits. */
  lemma FullUpdateFits(s: State, want: seq<int>, m: Message, blank: seq<Sent>)
    requires Inv(s) && Enabled(s, Finish(want, m, blank)) && SendsAll(s.client)
    ensures CountFits(m)
  {
    hide Image, Receive, FormatsFollow, IsUpdate, Shows, IdleInv, BusyInv;
    var c, j := s.client, s.client.job.value;
    UpdateResize(m, want, Reference(c), c.cw, c.ch, j.fmt, SendsAll(c), j.resize);
    FullFits(m, want, Reference(c), c.cw, c.ch, j.fmt, true, j.resize);
  }

  /** The viewer's screen keeps the size the server believes it has. */
  lemma ReceivedSize(screen: seq<Sent>, blank: seq<Sent>, cw: int, m: Message, n: nat)
    requires cw > 0 && (if m.resize then m.count > 0 && |blank| == n else |screen| == n)
    ensures |Receive(screen, blank, cw, m)| == n
  {
    hide ApplyRects;
  }

  lemma ResizeCounts(m: Message, want: seq<int>, last: seq<int>, cw: int, ch: int, fmt: PixFmt)
    requires ValidSize(cw, ch) && IsUpdate(m, want, last, cw, ch, fmt, true, true)
    ensures m.count > 0
  {
    hide RectsOf, Copies, Tiles, RowMax;
    FullFits(m, want, last, cw, ch, fmt, true, true);
  }

  lemma InvFinish(s: State, want: seq<int>, m: Message, blank: seq<Sent>)
    requires Inv(s) && Enabled(s, Finish(want, m, blank))
    ensures Inv(Next(s, Finish(want, m, blank)))
  {
    hide Image, Receive, IsUpdate, Shows, ValidFrame;
    var c, j := s.client, s.client.job.value;
    if s.exact { FinishShows(s, want, m, blank); }
    ShowsSize(want, j.frame, c.cw, c.ch);
    UpdateResize(m, want, Reference(c), c.cw, c.ch, j.fmt, SendsAll(c), j.resize);
    if j.resize { ResizeCounts(m, want, Reference(c), c.cw, c.ch, j.fmt); }
    ReceivedSize(s.screen, blank, c.cw, m, c.cw * c.ch);
  }

  lemma InvNext(s: State, step: Step)
    requires Inv(s) && Enabled(s, step)
    ensures Inv(Next(s, step))
  {
    hide Inv, Next, Enabled;
    match step {
      case Publish(f) => InvPublish(s, f);
      case Take => InvTake(s);
      case Finish(want, m, blank) => InvFinish(s, want, m, blank);
      case _ => InvSmallSteps(s, step);
    }
  }

  // ----------------------------------------------------------------------- runs

  ghost predicate Run(trace: seq<State>, steps: seq<Step>) {
    && |trace| == |steps| + 1
    && forall i :: 0 <= i < |steps| ==> Enabled(trace[i], steps[i]) && trace[i + 1] == Next(trace[i], steps[i])
  }

  lemma {:induction false} RunInv(trace: seq<State>, steps: seq<Step>, native: PixFmt, k: nat)
    requires Run(trace, steps) && Initial(trace[0], native) && k < |trace|
    ensures Inv(trace[k])
    decreases k
  {
    hide Inv, Enabled, Next, Initial;
    if k == 0 {
      InvInit(trace[0], native);
    } else {
      RunInv(trace, steps, native, k - 1);
      InvNext(trace[k - 1], steps[k - 1]);
    }
  }

  /** At every moment of a session: an idle client whose sequence number is the server's, and whose updates
      all fitted, shows the published frame, scaled to its size; format changes came with full updates only. */
  lemma SessionShows(trace: seq<State>, steps: seq<Step>, native: PixFmt, k: nat)
    requires Run(trace, steps) && Initial(trace[0], native) && k < |trace|
    ensures var s := trace[k]; var c := s.client;
      && FormatsFollow(s.log)
      && (c.alive && c.job.None? && c.sentSeq == s.server.frameSeq && s.server.fb.Some? ==>
            c.last.Some? && s.log != [] && 0 < c.cw && 0 < c.ch && Shows(c.last.value, s.server.fb.value, c.cw, c.ch)
            && (s.exact ==> s.screen == Image(ShownFmt(s), c.last.value)))
  {
    hide Enabled, Next, Initial, Shows, Image, FormatsFollow, ValidFrame;
    RunInv(trace, steps, native, k);
  }

  /** A screen so small that no update of it can have too many rectangles. */
  predicate Small(w: int, h: int) { Tiles(h) * ((Tiles(w) + 1) / 2) <= 0xFFFF }

  /** All sizes there are so far are small. */
  predicate AllSmall(s: State) {
    s.exact && Small(s.client.cw, s.client.ch) && (s.server.fb.Some? ==> Small(s.server.fb.value.w, s.server.fb.value.h))
  }

  lemma SmallStep(s: State, step: Step)
    requires Inv(s) && Enabled(s, step) && AllSmall(s) && (step.Publish? ==> Small(step.frame.w, step.frame.h))
    ensures AllSmall(Next(s, step))
  {
    hide Small, Shows, IsUpdate, Receive, IdleInv, BusyInv, FormatsFollow, ValidFrame;
    if step.Finish? {
      var c, j := s.client, s.client.job.value;
      UpdateResize(step.message, step.want, Reference(c), c.cw, c.ch, j.fmt, SendsAll(c), j.resize);
      SmallFits(step.message, step.want, Reference(c), c.cw, c.ch, j.fmt, SendsAll(c), j.resize);
    }
  }

  lemma SmallFits(m: Message, want: seq<int>, last: seq<int>, cw: int, ch: int, fmt: PixFmt, full: bool, resize: bool)
    requires ValidSize(cw, ch) && Small(cw, ch) && (resize ==> full) && IsUpdate(m, want, last, cw, ch, fmt, full, resize)
    ensures CountFits(m)
  {
    hide IsUpdate, Tiles;
    UpdateResize(m, want, last, cw, ch, fmt, full, resize);
    SmallScreensFit(m, want, last, cw, ch, fmt, full, resize);
  }

  /** A session of small frames never loses a rectangle. */
  lemma {:induction false} SmallSessionExact(trace: seq<State>, steps: seq<Step>, native: PixFmt, k: nat)
    requires Run(trace, steps) && Initial(trace[0], native) && k < |trace| && AllSmall(trace[0])
    requires forall i :: 0 <= i < |steps| && steps[i].Publish? ==> Small(steps[i].frame.w, steps[i].frame.h)
    ensures AllSmall(trace[k])
    decreases k
  {
    hide Inv, Enabled, Next, Initial, AllSmall, Small;
    if k > 0 {
      SmallSessionExact(trace, steps, native, k - 1);
      RunInv(trace, steps, native, k - 1);
      SmallStep(trace[k - 1], steps[k - 1]);
    }
  }

  /** The sequence number sent never goes back, nor ahead of the server's. */
  lemma {:induction false} SentSeqRises(trace: seq<State>, steps: seq<Step>, native: PixFmt, i: nat, k: nat)
    requires Run(trace, steps) && Initial(trace[0], native) && i <= k < |trace|
    ensures trace[i].client.sentSeq <= trace[k].client.sentSeq <= trace[k].server.frameSeq
    decreases k
  {
    hide Enabled, Next, Initial, Inv;
    RunInv(trace, steps, native, k);
    SeqBounded(trace[k]);
    if i < k {
      SentSeqRises(trace, steps, native, i, k - 1);
      RunInv(trace, steps, native, k - 1);
      StepRaisesSeq(trace[k - 1], steps[k - 1]);
    }
  }

  lemma SeqBounded(s: State)
    requires Inv(s)
    ensures s.client.sentSeq <= s.server.frameSeq
  {
  }

  lemma StepRaisesSeq(s: State, step: Step)
    requires Enabled(s, step) && Inv(s)
    ensures Next(s, step).client.sentSeq >= s.client.sentSeq
  {
    hide Shows, IsUpdate, IdleInv, BusyInv;
  }

  /** After a pixel-format change the next update taken is a full one, whatever happens in between. */
  lemma {:induction false} FormatChangeResends(trace: seq<State>, steps: seq<Step>, i: nat, k: nat)
    requires Run(trace, steps) && i < k < |steps| && steps[i].SetPixelFormat? && steps[k].Take?
    requires forall j :: i < j < k ==> !steps[j].Take?
    ensures trace[k + 1].client.job.Some? && trace[k + 1].client.job.value.full
  {
    hide IsUpdate, Shows, Receive;
    StaysMarked(trace, steps, i, k);
  }

  lemma {:induction false} StaysMarked(trace: seq<State>, steps: seq<Step>, i: nat, k: nat)
    requires Run(trace, steps) && i < k < |trace| && steps[i].SetPixelFormat?
    requires forall j :: i < j < k ==> !steps[j].Take?
    ensures trace[k].client.reqFull
    decreases k
  {
    hide Enabled, Next;
    if k > i + 1 {
      StaysMarked(trace, steps, i, k - 1);
      assert trace[k] == Next(trace[k - 1], steps[k - 1]);
      KeepsMark(trace[k - 1], steps[k - 1]);
    } else {
      assert trace[i + 1] == Next(trace[i], steps[i]);
      KeepsMark(trace[i], steps[i]);
    }
  }

  lemma KeepsMark(s: State, step: Step)
    requires Enabled(s, step) && !step.Take?
    ensures s.client.reqFull || step.SetPixelFormat? ==> Next(s, step).client.reqFull
  {
    hide Shows, IsUpdate, Receive;
  }

  function Requests(steps: seq<Step>): nat {
    if steps == [] then 0 else (if steps[|steps| - 1].Request? then 1 else 0) + Requests(steps[..|steps| - 1])
  }

  /** Updates received, on the way or asked for. */
  function Pending(s: State): nat {
    |s.log| + (if s.client.job.Some? then 1 else 0) + (if s.client.req then 1 else 0)
  }

  lemma PendingStep(s: State, step: Step)
    requires Enabled(s, step)
    ensures Pending(Next(s, step)) <= Pending(s) + if step.Request? then 1 else 0
  {
    hide IsUpdate, Shows, Receive;
  }

  /** Every update answers a request of its own. */
  lemma {:induction false} UpdatesAnswerRequests(trace: seq<State>, steps: seq<Step>, native: PixFmt)
    requires Run(trace, steps) && Initial(trace[0], native)
    ensures Pending(trace[|steps|]) <= Requests(steps)
    decreases |steps|
  {
    hide Enabled, Next, ServerInv;
    if steps != [] {
      var n := |steps|;
      assert Run(trace[..n], steps[..n - 1]);
      UpdatesAnswerRequests(trace[..n], steps[..n - 1], native);
      assert trace[n] == Next(trace[n - 1], steps[n - 1]);
      PendingStep(trace[n - 1], steps[n - 1]);
    }
  }

  // ------------------------------------------------------ the session, in place

  class Connection {
    var fb: Option<Frame>
    var frameSeq: nat
    var fmt: PixFmt
    var desktopSize: bool
    var req: bool
    var reqFull: bool
    var sentSeq: nat
    var cw: int
    var ch: int
    var alive: bool
    var last: Option<seq<int>>
    var job: Option<Job>

    function TheServer(): Server
      reads this
    {
      Server(fb, frameSeq)
    }

    function TheClient(): Client
      reads this
    {
      Client(fmt, desktopSize, req, reqFull, sentSeq, cw, ch, alive, last, job)
    }

    method UpdateArgb(f: Frame)
      modifies this
      ensures TheServer() == Published(old(TheServer()), f) && TheClient() == old(TheClient())
    {
      if fb.Some? && fb.value.w == f.w && fb.value.h == f.h && fb.value.pix == f.pix { return; }
      fb := Some(f);
      frameSeq := frameSeq + 1;
    }

    method OnSetPixelFormat(f: PixFmt)
      modifies this
      ensures TheServer() == old(TheServer()) && TheClient() == old(TheClient()).(fmt := f, reqFull := true)
    {
      fmt, reqFull := f, true;
    }

    method OnUpdateRequest(incremental: bool)
      modifies this
      ensures TheServer() == old(TheServer())
      ensures TheClient() == old(TheClient()).(req := true, reqFull := old(reqFull) || !incremental)
    {
      req := true;
      if !incremental { reqFull := true; }
    }

    /** The writer's turn under the lock. */
    method TakeUpdate() returns (took: bool)
      modifies this
      ensures took == (old(alive) && old(job).None? && Ready(old(TheServer()), old(TheClient())))
      ensures TheServer() == old(TheServer())
      ensures TheClient() == if took then Taken(old(TheServer()), old(TheClient())) else old(TheClient())
    {
      if !alive || job.Some? { return false; }
      var sizeChanged := fb.Some? && (fb.value.w != cw || fb.value.h != ch) && desktopSize;
      took := req && fb.Some? && (reqFull || sizeChanged || frameSeq != sentSeq);
      if !took { return; }
      var full := reqFull;
      if sizeChanged { cw, ch := fb.value.w, fb.value.h; }
      job := Some(Job(fb.value, fmt, full, sizeChanged));
      req, reqFull := false, false;
      sentSeq := frameSeq;
    }

    /** What to compare with: the screen as last sent, or a blank one when all is resent. */
    method Compare() returns (full: bool)
      requires job.Some? && 0 < cw && 0 < ch
      modifies this`last
      ensures full == SendsAll(old(TheClient())) && last == Some(Reference(old(TheClient())))
    {
      full := job.value.full;
      if last.None? || full || job.value.resize {
        Area(cw, ch);
        last := Some(seq(cw * ch, i => 0));
        full := true;
      }
    }

    /** Sends the update taken; ok says whether the socket took all of it. */
    method SendUpdate(ok: bool) returns (m: Message, ghost want: seq<int>)
      requires job.Some? && ValidFrame(job.value.frame) && 0 < cw && 0 < ch
      requires !SendsAll(TheClient()) ==> |last.value| == cw * ch
      modifies this
      ensures var c := old(TheClient());
        && Shows(want, c.job.value.frame, c.cw, c.ch)
        && IsUpdate(m, want, Reference(c), c.cw, c.ch, c.job.value.fmt, SendsAll(c), c.job.value.resize)
        && TheClient() == if ok then c.(last := Some(want), job := None) else Failed(c)
      ensures TheServer() == old(TheServer())
    {
      hide Shows, IsUpdate, Reference, SendsAll;
      var j := job.value;
      var w := BuildWant(j.frame, cw, ch);
      ShowsSize(w, j.frame, cw, ch);
      ReferenceSize(TheClient());
      var full := Compare();
      m := MakeUpdate(w, last.value, cw, ch, j.fmt, full, j.resize);
      want := w;
      job := None;
      if ok { last := Some(w); } else { alive := false; }
    }
  }

  lemma ReferenceSize(c: Client)
    requires c.job.Some? && 0 < c.cw && 0 < c.ch && (!SendsAll(c) ==> |c.last.value| == c.cw * c.ch)
    ensures |Reference(c)| == c.cw * c.ch
    ensures Failed(c) == c.(last := if SendsAll(c) then Some(Reference(c)) else c.last, job := None, alive := false)
    ensures !SendsAll(c) ==> c.last == Some(Reference(c))
  {
    Area(c.cw, c.ch);
  }
}
