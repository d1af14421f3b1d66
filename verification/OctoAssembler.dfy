/** The one-pass assembler: it emits code as it reads statements and patches jumps and
    forward references in place (cpu/chip8/octo.c). */
module OctoAssembler {
  import opened Runs
  import opened Chip8
  import opened Octo

  datatype LabelEntry = LabelEntry(name: string, addr: int)
  datatype FwdEntry = FwdEntry(name: string, off: int)

  function FindName(labels: seq<LabelEntry>, name: string): (i: nat)
    ensures i <= |labels|
    ensures i < |labels| ==> labels[i].name == name
    ensures forall j :: 0 <= j < i ==> labels[j].name != name
  {
    if labels == [] then 0
    else if labels[0].name == name then 0
    else 1 + FindName(labels[1..], name)
  }

  lemma FindNameUnique(labels: seq<LabelEntry>, name: string, i: nat)
    requires i < |labels| && labels[i].name == name
    requires forall j :: 0 <= j < i ==> labels[j].name != name
    ensures FindName(labels, name) == i
  {
  }

  /** The label table after k statements: one entry per name, holding its last address. */
  ghost predicate LabelsOk(labels: seq<LabelEntry>, p: Program, k: nat)
    requires k <= |p|
  {
    |labels| == CountLabels(p, k) && EntriesOk(labels, p, k) && NamesCovered(labels, p, k)
  }

  ghost predicate EntriesOk(labels: seq<LabelEntry>, p: Program, k: nat)
    requires k <= |p|
  {
    && (forall i, j :: 0 <= i < j < |labels| ==> labels[i].name != labels[j].name)
    && (forall i :: 0 <= i < |labels| ==>
          var d := LabelBefore(p, k, labels[i].name);
          d.Some? && labels[i].addr == Addr(p, d.value))
  }

  ghost predicate NamesCovered(labels: seq<LabelEntry>, p: Program, k: nat)
    requires k <= |p|
  {
    forall name: string :: LabelBefore(p, k, name).Some? ==> FindName(labels, name) < |labels|
  }

  /** Where opener i left its jump, relative to the buffer. */
  function JumpOff(p: Program, i: nat): int
    requires i < |p|
  {
    Addr(p, i) - ROM_BASE + if p[i].IfBegin? then 2 else 0
  }

  /** open lists, innermost first, the openers still waiting for their else or end. */
  ghost predicate OpenersOk(open: seq<nat>, p: Program, k: nat)
    requires k <= |p|
  {
    && (forall m :: 0 <= m < |open| ==> open[m] < k && Opens(p[open[m]]))
    && (forall m, n :: 0 <= m < n < |open| ==> open[m] > open[n])
    && (forall m :: 0 <= m < |open| ==> ScanIf(p, open[m], k) == Open(m))
    && (forall i :: 0 <= i < k && Opens(p[i]) && ScanIf(p, i, k).Open? ==>
          FromTop(open, ScanIf(p, i, k).depth) == Some(i))
  }

  function FromTop(stack: seq<nat>, d: nat): Option<nat> {
    if d < |stack| then Some(stack[d]) else None
  }

  /** loops lists, innermost first, the loops not yet closed. */
  ghost predicate LoopsOk(loops: seq<nat>, p: Program, k: nat)
    requires k <= |p|
  {
    && (forall m :: 0 <= m < |loops| ==> loops[m] < k)
    && (forall d: nat :: FindLoop(p, k, d) == FromTop(loops, d))
  }

  /** The buffer holds the first k statements, with the forward references below upto resolved. */
  ghost predicate ImageOk(rom: seq<Byte>, p: Program, k: nat, upto: nat)
    requires k <= |p|
  {
    forall i :: 0 <= i < k ==> BytesAt(rom, Addr(p, i) - ROM_BASE, Encode(p, i, k, i < upto))
  }

  lemma LowBits(a: int)
    ensures a % 65536 % 4096 == a % 4096
  {
    assert a == a / 65536 * 65536 + a % 65536;
  }

  lemma TwelveBits(a: int)
    ensures a % 4096 / 256 == a / 256 % 16
    ensures a % 4096 % 256 == a % 256
  {
  }

  lemma NibbleAbove(hi: Nibble, b: int)
    requires 0 <= b < 4096
    ensures (hi * 4096 + b) / 256 == hi * 16 + b / 256
    ensures (hi * 4096 + b) % 256 == b % 256
  {
  }

  lemma AddrOpBytes(hi: Nibble, a: int)
    ensures AddrOp(hi, a) / 256 == hi * 16 + a % 65536 / 256 % 16
    ensures AddrOp(hi, a) / 256 == hi * 16 + a / 256 % 16
    ensures AddrOp(hi, a) % 256 == a % 65536 % 256 == a % 256
  {
    LowBits(a);
    TwelveBits(a);
    TwelveBits(a % 65536);
    NibbleAbove(hi, a % 4096);
  }

  // ------------------------------------------- one more statement: the tables

  lemma LabelsUnchanged(labels: seq<LabelEntry>, p: Program, k: nat)
    requires k < |p| && !p[k].Label? && LabelsOk(labels, p, k)
    ensures LabelsOk(labels, p, k + 1)
  {
    assert forall name: string :: LabelBefore(p, k + 1, name) == LabelBefore(p, k, name);
  }

  function WithLabel(labels: seq<LabelEntry>, name: string, addr: int): seq<LabelEntry> {
    var i := FindName(labels, name);
    if i < |labels| then labels[i := LabelEntry(name, addr)] else labels + [LabelEntry(name, addr)]
  }

  lemma LabelsDefined(labels: seq<LabelEntry>, p: Program, k: nat)
    requires k < |p| && p[k].Label? && LabelsOk(labels, p, k)
    ensures LabelsOk(WithLabel(labels, p[k].name, Addr(p, k)), p, k + 1)
  {
    var added := p[k].name;
    LabelBeforeNext(p, k);
    var i := FindName(labels, added);
    assert i < |labels| <==> LabelBefore(p, k, added).Some? by {
      if i < |labels| { assert labels[i].name == added; }
    }
    assert |WithLabel(labels, added, Addr(p, k))| == CountLabels(p, k + 1);
    EntriesDefined(labels, p, k);
    NamesDefined(labels, p, k);
  }

  lemma EntriesDefined(labels: seq<LabelEntry>, p: Program, k: nat)
    requires k < |p| && p[k].Label? && EntriesOk(labels, p, k)
    ensures EntriesOk(WithLabel(labels, p[k].name, Addr(p, k)), p, k + 1)
  {
    hide LabelBefore, Addr, FindName;
    LabelBeforeNext(p, k);
    FindNameMeans(labels, p[k].name);
  }

  lemma FindNameMeans(labels: seq<LabelEntry>, name: string)
    ensures var i := FindName(labels, name);
      && (i < |labels| ==> labels[i].name == name) && (i >= |labels| ==> forall j :: 0 <= j < |labels| ==> labels[j].name != name)
  {
  }

  lemma NamesDefined(labels: seq<LabelEntry>, p: Program, k: nat)
    requires k < |p| && p[k].Label? && NamesCovered(labels, p, k)
    ensures NamesCovered(WithLabel(labels, p[k].name, Addr(p, k)), p, k + 1)
  {
    hide LabelBefore, Addr, WithLabel, FindName;
    LabelBeforeNext(p, k);
    var labels' := WithLabel(labels, p[k].name, Addr(p, k));
    forall name: string | LabelBefore(p, k + 1, name).Some?
      ensures FindName(labels', name) < |labels'|
    {
      if name != p[k].name { assert LabelBefore(p, k, name).Some?; }
      FindNameAfter(labels, name, p[k].name, Addr(p, k));
    }
  }

  lemma LabelBeforeNext(p: Program, k: nat)
    requires k < |p| && p[k].Label?
    ensures LabelBefore(p, k + 1, p[k].name) == Some(k)
    ensures forall name: string :: name != p[k].name ==> LabelBefore(p, k + 1, name) == LabelBefore(p, k, name)
  {
  }

  lemma FindNameAfter(labels: seq<LabelEntry>, name: string, added: string, a: int)
    requires name == added || FindName(labels, name) < |labels|
    ensures FindName(WithLabel(labels, added, a), name) < |WithLabel(labels, added, a)|
  {
    var j := FindName(labels, name);
    assert WithLabel(labels, added, a)[j].name == name;
  }

  lemma OpenersUnchanged(open: seq<nat>, p: Program, k: nat)
    requires k < |p| && !p[k].IfBegin? && !p[k].Else? && !p[k].End? && OpenersOk(open, p, k)
    ensures OpenersOk(open, p, k + 1)
  {
    hide ScanIf, FromTop, NextScan;
    assert !Opens(p[k]);
    forall i | 0 <= i < k && Opens(p[i]) && ScanIf(p, i, k + 1).Open?
      ensures FromTop(open, ScanIf(p, i, k + 1).depth) == Some(i)
    {
      ScanUnchanged(p, i, k);
    }
    forall m | 0 <= m < |open| ensures ScanIf(p, open[m], k + 1) == Open(m) { ScanUnchanged(p, open[m], k); }
  }

  lemma ScanUnchanged(p: Program, i: nat, k: nat)
    requires i < k < |p| && !p[k].IfBegin? && !p[k].Else? && !p[k].End?
    ensures ScanIf(p, i, k + 1) == ScanIf(p, i, k)
  {
    hide ScanIf;
    ScanOneMore(p, i, k);
  }

  lemma PushedOpener(open: seq<nat>, p: Program, k: nat, i: nat)
    requires i <= k < |p| && p[k].IfBegin?
    requires i < k && ScanIf(p, i, k).Open? ==> FromTop(open, ScanIf(p, i, k).depth) == Some(i)
    requires ScanIf(p, i, k + 1).Open?
    ensures FromTop([k] + open, ScanIf(p, i, k + 1).depth) == Some(i)
  {
    hide ScanIf;
    ScanOneMore(p, i, k);
  }

  lemma PushedEntry(open: seq<nat>, p: Program, k: nat, m: nat)
    requires k < |p| && p[k].IfBegin? && m <= |open|
    requires m > 0 ==> open[m - 1] < k && ScanIf(p, open[m - 1], k) == Open(m - 1)
    ensures ([k] + open)[m] <= k && ScanIf(p, ([k] + open)[m], k + 1) == Open(m)
  {
    hide ScanIf;
    ScanOneMore(p, ([k] + open)[m], k);
  }

  lemma OpenersPush(open: seq<nat>, p: Program, k: nat)
    requires k < |p| && p[k].IfBegin? && OpenersOk(open, p, k)
    ensures OpenersOk([k] + open, p, k + 1)
  {
    hide ScanIf, NextScan, FromTop;
    var open' := [k] + open;
    forall i | 0 <= i < k + 1 && Opens(p[i]) && ScanIf(p, i, k + 1).Open?
      ensures FromTop(open', ScanIf(p, i, k + 1).depth) == Some(i)
    {
      if i < k && ScanIf(p, i, k).Open? { assert FromTop(open, ScanIf(p, i, k).depth) == Some(i); }
      PushedOpener(open, p, k, i);
    }
    forall m | 0 <= m < |open'|
      ensures ScanIf(p, open'[m], k + 1) == Open(m)
    {
      if m > 0 { assert ScanIf(p, open[m - 1], k) == Open(m - 1); }
      PushedEntry(open, p, k, m);
    }
  }

  function Popped(open: seq<nat>, p: Program, k: nat): seq<nat>
    requires k < |p| && |open| > 0
  {
    if p[k].Else? then [k] + open[1..] else open[1..]
  }

  lemma OpenersPop(open: seq<nat>, p: Program, k: nat)
    requires k < |p| && (p[k].Else? || p[k].End?) && OpenersOk(open, p, k) && |open| > 0
    ensures OpenersOk(Popped(open, p, k), p, k + 1)
    ensures open[0] < k && Opens(p[open[0]]) && ScanIf(p, open[0], k + 1) == Found(k)
  {
    hide ScanIf, Popped;
    assert ScanIf(p, open[0], k) == Open(0);
    ScanOneMore(p, open[0], k);
    forall i | 0 <= i < k + 1 && Opens(p[i]) && ScanIf(p, i, k + 1).Open?
      ensures FromTop(Popped(open, p, k), ScanIf(p, i, k + 1).depth) == Some(i)
    {
      if i < k && ScanIf(p, i, k).Open? { assert FromTop(open, ScanIf(p, i, k).depth) == Some(i); }
      PoppedOpener(open, p, k, i);
    }
    forall m | 0 <= m < |Popped(open, p, k)|
      ensures Popped(open, p, k)[m] < k + 1 && Opens(p[Popped(open, p, k)[m]])
      ensures ScanIf(p, Popped(open, p, k)[m], k + 1) == Open(m)
    {
      PoppedEntry(open, p, k, m);
    }
    PoppedOrder(open, p, k);
  }

  lemma PoppedOpener(open: seq<nat>, p: Program, k: nat, i: nat)
    requires i <= k < |p| && (p[k].Else? || p[k].End?) && |open| > 0
    requires i < k && ScanIf(p, i, k).Open? ==> FromTop(open, ScanIf(p, i, k).depth) == Some(i)
    requires ScanIf(p, i, k + 1).Open? && Opens(p[i])
    ensures FromTop(Popped(open, p, k), ScanIf(p, i, k + 1).depth) == Some(i)
  {
    hide ScanIf;
    ScanOneMore(p, i, k);
  }

  lemma OpenEntry(open: seq<nat>, p: Program, k: nat, n: nat)
    requires k <= |p| && OpenersOk(open, p, k) && n < |open|
    ensures open[n] < k && Opens(p[open[n]]) && ScanIf(p, open[n], k) == Open(n)
  {
    hide ScanIf, FromTop, Opens;
  }

  lemma PoppedEntry(open: seq<nat>, p: Program, k: nat, m: nat)
    requires k < |p| && (p[k].Else? || p[k].End?) && OpenersOk(open, p, k) && |open| > 0
    requires m < |Popped(open, p, k)|
    ensures Popped(open, p, k)[m] < k + 1 && Opens(p[Popped(open, p, k)[m]])
    ensures ScanIf(p, Popped(open, p, k)[m], k + 1) == Open(m)
  {
    hide ScanIf, FromTop, OpenersOk, NextScan, Opens, Popped;
    PoppedAt(open, p, k, m);
    if p[k].Else? && m == 0 {
      ScanOneMore(p, k, k);
    } else {
      var n := if p[k].Else? then m else m + 1;
      OpenEntry(open, p, k, n);
      ScanOneMore(p, open[n], k);
      PastTop(n, p[k], k);
    }
  }

  lemma PoppedAt(open: seq<nat>, p: Program, k: nat, m: nat)
    requires k < |p| && (p[k].Else? || p[k].End?) && |open| > 0 && m < |Popped(open, p, k)|
    ensures Popped(open, p, k)[m] == (if p[k].Else? then (if m == 0 then k else open[m]) else open[m + 1])
    ensures (p[k].Else? ==> Opens(p[k]) && m < |open|) && (p[k].End? ==> m + 1 < |open|)
  {
  }

  lemma PastTop(n: nat, s: Stmt, k: nat)
    requires n > 0 && (s.Else? || s.End?)
    ensures NextScan(Open(n), s, k) == Open(if s.Else? then n else n - 1)
  {
  }

  lemma PoppedOrder(open: seq<nat>, p: Program, k: nat)
    requires k < |p| && |open| > 0 && (forall m :: 0 <= m < |open| ==> open[m] < k)
    requires forall m, n :: 0 <= m < n < |open| ==> open[m] > open[n]
    ensures forall m, n :: 0 <= m < n < |Popped(open, p, k)| ==> Popped(open, p, k)[m] > Popped(open, p, k)[n]
  {
  }

  lemma ScanOneMore(p: Program, i: nat, k: nat)
    requires i <= k < |p|
    ensures ScanIf(p, i, k + 1) == if i == k then Open(0) else NextScan(ScanIf(p, i, k), p[k], k)
  {
  }

  lemma LoopsUnchanged(loops: seq<nat>, p: Program, k: nat)
    requires k < |p| && !p[k].Loop? && !p[k].Again? && LoopsOk(loops, p, k)
    ensures LoopsOk(loops, p, k + 1)
  {
    forall d: nat ensures FindLoop(p, k + 1, d) == FromTop(loops, d) {
      assert FindLoop(p, k + 1, d) == FindLoop(p, k, d);
    }
  }

  lemma LoopsPush(loops: seq<nat>, p: Program, k: nat)
    requires k < |p| && p[k].Loop? && LoopsOk(loops, p, k)
    ensures LoopsOk([k] + loops, p, k + 1)
  {
    var loops' := [k] + loops;
    forall d: nat
      ensures FindLoop(p, k + 1, d) == FromTop(loops', d)
    {
      if d > 0 { assert FindLoop(p, k + 1, d) == FindLoop(p, k, d - 1); }
    }
  }

  lemma LoopsPop(loops: seq<nat>, p: Program, k: nat)
    requires k < |p| && p[k].Again? && LoopsOk(loops, p, k) && |loops| > 0
    ensures LoopsOk(loops[1..], p, k + 1)
    ensures FindLoop(p, k, 0) == Some(loops[0])
  {
    var loops' := loops[1..];
    forall d: nat
      ensures FindLoop(p, k + 1, d) == FromTop(loops', d)
    {
      assert FindLoop(p, k + 1, d) == FindLoop(p, k, d + 1);
    }
  }

  // ------------------------------------------------------- all tables together

  datatype Tables = Tables(labels: seq<LabelEntry>, fwds: seq<FwdEntry>, ifStack: seq<int>, loopStack: seq<int>)

  ghost predicate FwdsOk(fwds: seq<FwdEntry>, p: Program, k: nat)
    requires k <= |p|
  {
    && |fwds| == |Forwards(p, k)| <= MAX_FWD
    && (forall m :: 0 <= m < |fwds| ==>
          var i := Forwards(p, k)[m];
          fwds[m] == FwdEntry(TargetOf(p[i]).name, Addr(p, i) - ROM_BASE))
  }

  /** The jump offsets, outermost first, of openers listed innermost first. */
  ghost function JumpOffs(p: Program, open: seq<nat>): seq<int>
    requires forall m :: 0 <= m < |open| ==> open[m] < |p|
  {
    if open == [] then [] else JumpOffs(p, open[1..]) + [JumpOff(p, open[0])]
  }

  ghost function LoopAddrs(p: Program, loops: seq<nat>): seq<int>
    requires forall m :: 0 <= m < |loops| ==> loops[m] < |p|
  {
    if loops == [] then [] else LoopAddrs(p, loops[1..]) + [Addr(p, loops[0])]
  }

  ghost predicate IfStackOk(s: seq<int>, p: Program, k: nat, open: seq<nat>)
    requires k <= |p|
  {
    OpenersOk(open, p, k) && |open| == |s| == OpenIfs(p, k) <= STACK_SZ && s == JumpOffs(p, open)
  }

  ghost predicate LoopStackOk(s: seq<int>, p: Program, k: nat, loops: seq<nat>)
    requires k <= |p|
  {
    LoopsOk(loops, p, k) && |loops| == |s| == OpenLoops(p, k) <= STACK_SZ && s == LoopAddrs(p, loops)
  }

  /** The tables after k statements, with openers open and loops still to be closed. */
  ghost predicate TablesOk(t: Tables, p: Program, k: nat, open: seq<nat>, loops: seq<nat>)
    requires k <= |p|
  {
    && LabelsOk(t.labels, p, k) && FwdsOk(t.fwds, p, k)
    && IfStackOk(t.ifStack, p, k, open) && LoopStackOk(t.loopStack, p, k, loops)
  }

  lemma TableSizes(t: Tables, p: Program, k: nat, open: seq<nat>, loops: seq<nat>)
    requires k <= |p| && TablesOk(t, p, k, open, loops)
    ensures |t.labels| == CountLabels(p, k)
    ensures |t.fwds| == |Forwards(p, k)|
    ensures |t.ifStack| == |open| == OpenIfs(p, k)
    ensures |t.loopStack| == |loops| == OpenLoops(p, k)
  {
    hide OpenersOk, LoopsOk, EntriesOk, NamesCovered, Forwards;
  }

  lemma IfStackUnchanged(s: seq<int>, p: Program, k: nat, open: seq<nat>)
    requires k < |p| && !p[k].IfBegin? && !p[k].Else? && !p[k].End? && IfStackOk(s, p, k, open)
    ensures IfStackOk(s, p, k + 1, open)
  {
    hide OpenersOk;
    OpenersUnchanged(open, p, k);
  }

  lemma LoopStackUnchanged(s: seq<int>, p: Program, k: nat, loops: seq<nat>)
    requires k < |p| && !p[k].Loop? && !p[k].Again? && LoopStackOk(s, p, k, loops)
    ensures LoopStackOk(s, p, k + 1, loops)
  {
    hide LoopsOk;
    LoopsUnchanged(loops, p, k);
  }

  lemma FwdsUnchanged(fwds: seq<FwdEntry>, p: Program, k: nat)
    requires k < |p| && !IsForward(p, k) && FwdsOk(fwds, p, k)
    ensures FwdsOk(fwds, p, k + 1)
  {
  }

  lemma TablesPlain(t: Tables, p: Program, k: nat, open: seq<nat>, loops: seq<nat>)
    requires k < |p| && TablesOk(t, p, k, open, loops) && !p[k].Label? && !IsForward(p, k)
    requires !p[k].IfBegin? && !p[k].Else? && !p[k].End? && !p[k].Loop? && !p[k].Again?
    ensures TablesOk(t, p, k + 1, open, loops)
  {
    hide LabelsOk, FwdsOk, IfStackOk, LoopStackOk;
    LabelsUnchanged(t.labels, p, k);
    FwdsUnchanged(t.fwds, p, k);
    IfStackUnchanged(t.ifStack, p, k, open);
    LoopStackUnchanged(t.loopStack, p, k, loops);
  }

  lemma TablesLabel(t: Tables, p: Program, k: nat, open: seq<nat>, loops: seq<nat>)
    requires k < |p| && TablesOk(t, p, k, open, loops) && p[k].Label?
    ensures TablesOk(t.(labels := WithLabel(t.labels, p[k].name, Addr(p, k))), p, k + 1, open, loops)
  {
    hide LabelsOk, FwdsOk, IfStackOk, LoopStackOk;
    LabelsDefined(t.labels, p, k);
    FwdsUnchanged(t.fwds, p, k);
    IfStackUnchanged(t.ifStack, p, k, open);
    LoopStackUnchanged(t.loopStack, p, k, loops);
  }

  lemma FwdsPush(fwds: seq<FwdEntry>, p: Program, k: nat)
    requires k < |p| && IsForward(p, k) && FwdsOk(fwds, p, k) && |fwds| < MAX_FWD
    ensures FwdsOk(fwds + [FwdEntry(TargetOf(p[k]).name, Addr(p, k) - ROM_BASE)], p, k + 1)
  {
    hide Addr, IsForward, TargetOf;
  }

  lemma TablesForward(t: Tables, p: Program, k: nat, open: seq<nat>, loops: seq<nat>)
    requires k < |p| && TablesOk(t, p, k, open, loops) && IsForward(p, k) && |t.fwds| < MAX_FWD
    ensures TablesOk(t.(fwds := t.fwds + [FwdEntry(TargetOf(p[k]).name, Addr(p, k) - ROM_BASE)]),
                     p, k + 1, open, loops)
  {
    hide LabelsOk, FwdsOk, IfStackOk, LoopStackOk;
    LabelsUnchanged(t.labels, p, k);
    FwdsPush(t.fwds, p, k);
    IfStackUnchanged(t.ifStack, p, k, open);
    LoopStackUnchanged(t.loopStack, p, k, loops);
  }

  lemma LoopStackPush(s: seq<int>, p: Program, k: nat, loops: seq<nat>)
    requires k < |p| && LoopStackOk(s, p, k, loops) && p[k].Loop? && |s| < STACK_SZ
    ensures LoopStackOk(s + [Addr(p, k)], p, k + 1, [k] + loops)
  {
    hide FindLoop, Addr;
    LoopsPush(loops, p, k);
    assert ([k] + loops)[1..] == loops;
  }

  lemma TablesLoop(t: Tables, p: Program, k: nat, open: seq<nat>, loops: seq<nat>)
    requires k < |p| && TablesOk(t, p, k, open, loops) && p[k].Loop? && |t.loopStack| < STACK_SZ
    ensures TablesOk(t.(loopStack := t.loopStack + [Addr(p, k)]), p, k + 1, open, [k] + loops)
  {
    hide LabelsOk, FwdsOk, IfStackOk, LoopStackOk;
    LabelsUnchanged(t.labels, p, k);
    FwdsUnchanged(t.fwds, p, k);
    IfStackUnchanged(t.ifStack, p, k, open);
    LoopStackPush(t.loopStack, p, k, loops);
  }

  lemma LoopStackPop(s: seq<int>, p: Program, k: nat, loops: seq<nat>)
    requires k < |p| && LoopStackOk(s, p, k, loops) && p[k].Again? && |s| > 0
    ensures |loops| > 0 && LoopStackOk(s[..|s| - 1], p, k + 1, loops[1..])
    ensures FindLoop(p, k, 0).Some? && s[|s| - 1] == Addr(p, FindLoop(p, k, 0).value)
  {
    hide FindLoop, Addr;
    LoopsPop(loops, p, k);
  }

  lemma TablesAgain(t: Tables, p: Program, k: nat, open: seq<nat>, loops: seq<nat>)
    requires k < |p| && TablesOk(t, p, k, open, loops) && p[k].Again? && |t.loopStack| > 0
    ensures |loops| > 0
    ensures TablesOk(t.(loopStack := t.loopStack[..|t.loopStack| - 1]), p, k + 1, open, loops[1..])
    ensures FindLoop(p, k, 0).Some? && t.loopStack[|t.loopStack| - 1] == Addr(p, FindLoop(p, k, 0).value)
  {
    hide LabelsOk, FwdsOk, IfStackOk, LoopStackOk, FindLoop;
    LabelsUnchanged(t.labels, p, k);
    FwdsUnchanged(t.fwds, p, k);
    IfStackUnchanged(t.ifStack, p, k, open);
    LoopStackPop(t.loopStack, p, k, loops);
  }

  lemma IfStackPush(s: seq<int>, p: Program, k: nat, open: seq<nat>)
    requires k < |p| && IfStackOk(s, p, k, open) && p[k].IfBegin? && |s| < STACK_SZ
    ensures IfStackOk(s + [JumpOff(p, k)], p, k + 1, [k] + open)
  {
    hide ScanIf, JumpOff;
    OpenersPush(open, p, k);
    assert ([k] + open)[1..] == open;
  }

  lemma TablesIf(t: Tables, p: Program, k: nat, open: seq<nat>, loops: seq<nat>)
    requires k < |p| && TablesOk(t, p, k, open, loops) && p[k].IfBegin? && |t.ifStack| < STACK_SZ
    ensures TablesOk(t.(ifStack := t.ifStack + [JumpOff(p, k)]), p, k + 1, [k] + open, loops)
  {
    hide LabelsOk, FwdsOk, IfStackOk, LoopStackOk;
    LabelsUnchanged(t.labels, p, k);
    FwdsUnchanged(t.fwds, p, k);
    IfStackPush(t.ifStack, p, k, open);
    LoopStackUnchanged(t.loopStack, p, k, loops);
  }

  lemma OpenersInRange(open: seq<nat>, p: Program, k: nat)
    requires k <= |p| && OpenersOk(open, p, k)
    ensures forall m :: 0 <= m < |open| ==> open[m] < k && Opens(p[open[m]])
  {
    hide ScanIf, FromTop;
  }

  lemma IfStackClose(s: seq<int>, p: Program, k: nat, open: seq<nat>)
    requires k < |p| && IfStackOk(s, p, k, open) && (p[k].Else? || p[k].End?) && |s| > 0
    ensures |open| > 0 && open[0] < k && s[|s| - 1] == JumpOff(p, open[0])
    ensures var rest := s[..|s| - 1];
      IfStackOk(if p[k].Else? then rest + [JumpOff(p, k)] else rest, p, k + 1, Popped(open, p, k))
  {
    hide OpenersOk, JumpOff;
    OpenersPop(open, p, k);
    OpenersInRange(open, p, k);
    assert ([k] + open[1..])[1..] == open[1..];
  }

  lemma TablesClose(t: Tables, p: Program, k: nat, open: seq<nat>, loops: seq<nat>)
    requires k < |p| && TablesOk(t, p, k, open, loops) && (p[k].Else? || p[k].End?) && |t.ifStack| > 0
    ensures |open| > 0 && open[0] < k && t.ifStack[|t.ifStack| - 1] == JumpOff(p, open[0])
    ensures var rest := t.ifStack[..|t.ifStack| - 1];
      TablesOk(t.(ifStack := if p[k].Else? then rest + [JumpOff(p, k)] else rest), p, k + 1, Popped(open, p, k), loops)
  {
    hide LabelsOk, FwdsOk, IfStackOk, LoopStackOk, JumpOff;
    LabelsUnchanged(t.labels, p, k);
    FwdsUnchanged(t.fwds, p, k);
    IfStackClose(t.ifStack, p, k, open);
    LoopStackUnchanged(t.loopStack, p, k, loops);
  }

  // -------------------------------------------- one more statement: the image

  /** Only the exit of an opener can change when another statement is read. */
  lemma EncodeStable(p: Program, i: nat, k: nat, resolved: bool)
    requires i < k < |p|
    requires Opens(p[i]) ==> ExitAddr(p, i, k + 1) == ExitAddr(p, i, k)
    ensures Encode(p, i, k + 1, resolved) == Encode(p, i, k, resolved)
  {
    hide ExitAddr, AddrOp, SkipTrue, SkipFalse, RefAddr, PlainWord, FindLoop;
  }

  lemma ExitStable(p: Program, i: nat, k: nat)
    requires i < k < |p| && !p[k].Else? && !p[k].End?
    ensures ExitAddr(p, i, k + 1) == ExitAddr(p, i, k)
  {
  }

  /** A statement no patch touches stays encoded. */
  lemma SlotKept(rom: seq<Byte>, rom': seq<Byte>, p: Program, i: nat, k: nat, lo: int, hi: int)
    requires i < k < |p| && |rom'| == |rom| && lo <= hi
    requires BytesAt(rom, Addr(p, i) - ROM_BASE, Encode(p, i, k, false))
    requires Opens(p[i]) ==> ExitAddr(p, i, k + 1) == ExitAddr(p, i, k)
    requires forall j :: 0 <= j < |rom| && j < Addr(p, k) - ROM_BASE && !(lo <= j < hi) ==> rom'[j] == rom[j]
    requires Addr(p, i + 1) - ROM_BASE <= lo || hi <= Addr(p, i) - ROM_BASE
    ensures BytesAt(rom', Addr(p, i) - ROM_BASE, Encode(p, i, k + 1, false))
  {
    hide Encode, ExitAddr, Addr, Size, BytesAt;
    EncodeStable(p, i, k, false);
    AddrMonotone(p, i + 1, k);
    AddrNext(p, i);
    SliceKept(rom, rom', Addr(p, i) - ROM_BASE, Encode(p, i, k, false));
  }

  lemma AddrNext(p: Program, i: nat)
    requires i < |p|
    ensures Addr(p, i + 1) == Addr(p, i) + Size(p[i])
  {
  }

  lemma SliceKept(rom: seq<Byte>, rom': seq<Byte>, a: int, b: seq<Byte>)
    requires BytesAt(rom, a, b) && |rom'| == |rom| && forall j :: 0 <= j < |rom| && a <= j < a + |b| ==> rom'[j] == rom[j]
    ensures BytesAt(rom', a, b)
  {
    assert rom'[a..a + |b|] == rom[a..a + |b|];
  }

  lemma ImageExtended(rom: seq<Byte>, rom': seq<Byte>, p: Program, k: nat)
    requires k < |p| && !p[k].Else? && !p[k].End? && ImageOk(rom, p, k, 0) && |rom'| == |rom|
    requires forall j :: 0 <= j < |rom| && j < Addr(p, k) - ROM_BASE ==> rom'[j] == rom[j]
    requires BytesAt(rom', Addr(p, k) - ROM_BASE, Encode(p, k, k + 1, false))
    ensures ImageOk(rom', p, k + 1, 0)
  {
    hide Encode, ExitAddr, BytesAt, Opens, Addr, Size;
    forall i | 0 <= i < k
      ensures BytesAt(rom', Addr(p, i) - ROM_BASE, Encode(p, i, k + 1, false))
    {
      assert BytesAt(rom, Addr(p, i) - ROM_BASE, Encode(p, i, k, i < 0));
      ExitStable(p, i, k);
      AddrMonotone(p, i + 1, k);
      SlotKept(rom, rom', p, i, k, Addr(p, k) - ROM_BASE, Addr(p, k) - ROM_BASE);
    }
  }

  /** Reading an else or end completes exactly the innermost opener. */
  lemma ImagePatched(rom: seq<Byte>, rom': seq<Byte>, p: Program, k: nat, open: seq<nat>)
    requires k < |p| && (p[k].Else? || p[k].End?) && OpenersOk(open, p, k) && |open| > 0
    requires ImageOk(rom, p, k, 0) && |rom'| == |rom|
    requires var off := JumpOff(p, open[0]);
      && BytesAt(rom', off, Bytes2(AddrOp(1, Addr(p, k + 1))))
      && (forall j :: 0 <= j < |rom| && j < Addr(p, k) - ROM_BASE && !(off <= j < off + 2) ==> rom'[j] == rom[j])
    requires BytesAt(rom', Addr(p, k) - ROM_BASE, Encode(p, k, k + 1, false))
    ensures ImageOk(rom', p, k + 1, 0)
  {
    hide Encode, BytesAt, Addr, Size, ExitAddr, ScanIf, AddrOp, OpenersOk;
    var top := open[0];
    OpenersPop(open, p, k);
    var off := JumpOff(p, top);
    forall i | 0 <= i < k && i != top
      ensures BytesAt(rom', Addr(p, i) - ROM_BASE, Encode(p, i, k + 1, false))
    {
      assert BytesAt(rom, Addr(p, i) - ROM_BASE, Encode(p, i, k, i < 0));
      OtherSlotKept(rom, rom', p, i, k, open);
    }
    assert BytesAt(rom, Addr(p, top) - ROM_BASE, Encode(p, top, k, top < 0));
    AddrMonotone(p, top, k);
    TopSlot(rom, rom', p, k, top);
  }

  lemma OtherSlotKept(rom: seq<Byte>, rom': seq<Byte>, p: Program, i: nat, k: nat, open: seq<nat>)
    requires i < k < |p| && |rom'| == |rom| && OpenersOk(open, p, k) && |open| > 0
    requires i != open[0]
    requires BytesAt(rom, Addr(p, i) - ROM_BASE, Encode(p, i, k, false))
    requires var off := JumpOff(p, open[0]);
      forall j :: 0 <= j < |rom| && j < Addr(p, k) - ROM_BASE && !(off <= j < off + 2) ==> rom'[j] == rom[j]
    ensures BytesAt(rom', Addr(p, i) - ROM_BASE, Encode(p, i, k + 1, false))
  {
    hide Encode, BytesAt, ExitAddr, ScanIf;
    var top := open[0];
    var off := JumpOff(p, top);
    OtherExitsStable(open, p, i, k);
    assert Addr(p, top + 1) == Addr(p, top) + Size(p[top]);
    if i < top { AddrMonotone(p, i + 1, top); } else { AddrMonotone(p, top + 1, i); }
    SlotKept(rom, rom', p, i, k, off, off + 2);
  }

  lemma OtherExitsStable(open: seq<nat>, p: Program, i: nat, k: nat)
    requires i < k < |p| && OpenersOk(open, p, k) && |open| > 0 && i != open[0]
    ensures Opens(p[i]) ==> ExitAddr(p, i, k + 1) == ExitAddr(p, i, k)
  {
    hide ScanIf;
    ScanOneMore(p, i, k);
    if Opens(p[i]) && ScanIf(p, i, k).Open? {
      assert FromTop(open, ScanIf(p, i, k).depth) == Some(i);
    }
  }

  lemma TopSlot(rom: seq<Byte>, rom': seq<Byte>, p: Program, k: nat, top: nat)
    requires top < k < |p| && |rom'| == |rom| && Opens(p[top]) && ScanIf(p, top, k + 1) == Found(k)
    requires BytesAt(rom, Addr(p, top) - ROM_BASE, Encode(p, top, k, false))
    requires BytesAt(rom', JumpOff(p, top), Bytes2(AddrOp(1, Addr(p, k + 1))))
    requires Addr(p, top) + Size(p[top]) <= Addr(p, k)
    requires var off := JumpOff(p, top);
      forall j :: 0 <= j < |rom| && j < Addr(p, k) - ROM_BASE && !(off <= j < off + 2) ==> rom'[j] == rom[j]
    ensures BytesAt(rom', Addr(p, top) - ROM_BASE, Encode(p, top, k + 1, false))
  {
    hide AddrOp, SkipTrue, ScanIf, Encode, Addr;
    var a := Addr(p, top) - ROM_BASE;
    OpenerEncoding(p, top, k);
    OpenerEncoding(p, top, k + 1);
    ExitFound(p, top, k);
    if p[top].IfBegin? {
      HalfKept(rom, rom', a, Bytes2(SkipTrue(p[top].c)), Bytes2(AddrOp(1, ExitAddr(p, top, k))), Bytes2(AddrOp(1, Addr(p, k + 1))));
    }
  }

  lemma OpenerEncoding(p: Program, i: nat, k: nat)
    requires i < k <= |p| && Opens(p[i])
    ensures Encode(p, i, k, false) ==
      (if p[i].IfBegin? then Bytes2(SkipTrue(p[i].c)) else []) + Bytes2(AddrOp(1, ExitAddr(p, i, k)))
    ensures JumpOff(p, i) == Addr(p, i) - ROM_BASE + if p[i].IfBegin? then 2 else 0
  {
    hide AddrOp, SkipTrue, ScanIf, Addr;
  }

  lemma ExitFound(p: Program, i: nat, k: nat)
    requires i < k < |p| && ScanIf(p, i, k + 1) == Found(k)
    ensures ExitAddr(p, i, k + 1) == Addr(p, k + 1)
  {
    hide ScanIf, Addr;
  }

  /** The first two of four bytes kept, the last two replaced. */
  lemma HalfKept(rom: seq<Byte>, rom': seq<Byte>, a: int, skip: seq<Byte>, jump: seq<Byte>, jump': seq<Byte>)
    requires |skip| == |jump| == |jump'| == 2 && |rom'| == |rom| && BytesAt(rom, a, skip + jump)
    requires BytesAt(rom', a + 2, jump') && rom'[a] == rom[a] && rom'[a + 1] == rom[a + 1]
    ensures BytesAt(rom', a, skip + jump')
  {
    assert rom[a..a + 4][0] == skip[0] && rom[a..a + 4][1] == skip[1];
    assert rom'[a..a + 4] == [rom'[a], rom'[a + 1]] + rom'[a + 2..a + 4];
  }

  // ---------------------------------------------------------------- rejection

  lemma Overflow(p: Program, k: nat, romMax: nat)
    requires k < |p| && Addr(p, k + 1) - ROM_BASE > romMax
    ensures !Acceptable(p, romMax)
  {
    AddrMonotone(p, k + 1, |p|);
  }

  lemma AddrOpIs(hi: Nibble, a: int)
    ensures AddrOp(hi, a) == hi * 4096 + a % 4096
  {
  }

  lemma RefBytes(p: Program, k: nat)
    requires k < |p| && TakesAddr(p[k])
    ensures Encode(p, k, k + 1, false) == Bytes2(AddrOp(AddrNibble(p[k]), RefAddr(p, k, false)))
    ensures Addr(p, k + 1) == Addr(p, k) + 2 && StmtFits(p, k) && !p[k].Else? && !p[k].End?
  {
    hide AddrOp, RefAddr, LabelBefore;
  }

  lemma IfBeginBytes(p: Program, k: nat)
    requires k < |p| && p[k].IfBegin?
    ensures Encode(p, k, k + 1, false) == Bytes2(SkipTrue(p[k].c)) + Bytes2(0x1000)
    ensures Addr(p, k + 1) == Addr(p, k) + 4 && JumpOff(p, k) == Addr(p, k) - ROM_BASE + 2
  {
    hide SkipTrue;
  }

  lemma IfFits(p: Program, k: nat)
    requires k < |p| && p[k].IfBegin?
    ensures StmtFits(p, k) <==> OpenIfs(p, k) < STACK_SZ
    ensures |Bytes2(SkipTrue(p[k].c))| == |Bytes2(0x1000)| == 2
  {
    hide SkipTrue;
  }

  lemma ConcatBytes(rom: seq<Byte>, rom': seq<Byte>, off: int, a: seq<Byte>, b: seq<Byte>)
    requires BytesAt(rom, off, a) && BytesAt(rom', off + |a|, b) && |rom| == |rom'|
    requires forall j :: 0 <= j < |rom| && !(off + |a| <= j < off + |a| + |b|) ==> rom'[j] == rom[j]
    ensures BytesAt(rom', off, a + b)
  {
    assert rom'[off..off + |a|] == rom[off..off + |a|];
    assert rom'[off..off + |a + b|] == rom'[off..off + |a|] + rom'[off + |a|..off + |a| + |b|];
  }

  lemma KeepBytes(rom: seq<Byte>, rom': seq<Byte>, off: int, a: seq<Byte>, lo: int, hi: int)
    requires BytesAt(rom, off, a) && |rom| == |rom'| && (off + |a| <= lo || hi <= off)
    requires forall j :: 0 <= j < |rom| && !(lo <= j < hi) ==> rom'[j] == rom[j]
    ensures BytesAt(rom', off, a)
  {
    assert rom'[off..off + |a|] == rom[off..off + |a|];
  }

  lemma CloseFits(p: Program, k: nat)
    requires k < |p| && (p[k].Else? || p[k].End?)
    ensures StmtFits(p, k) <==> OpenIfs(p, k) > 0
    ensures Addr(p, k + 1) == Addr(p, k) + Size(p[k])
    ensures p[k].Else? ==> Encode(p, k, k + 1, false) == Bytes2(0x1000) && JumpOff(p, k) == Addr(p, k) - ROM_BASE
    ensures p[k].End? ==> Encode(p, k, k + 1, false) == []
    ensures |Bytes2(0x1000)| == 2
  {
  }

  /** The jump an opener left lies in the code so far. */
  lemma OpenerInside(p: Program, i: nat, k: nat)
    requires i < k <= |p| && Opens(p[i])
    ensures 0 <= JumpOff(p, i) && JumpOff(p, i) + 2 <= Addr(p, k) - ROM_BASE
  {
    AddrMonotone(p, i, k);
  }

  lemma EmptyBytes(rom: seq<Byte>, off: int)
    requires 0 <= off <= |rom|
    ensures BytesAt(rom, off, [])
  {
  }

  lemma TablesOpeners(t: Tables, p: Program, k: nat, open: seq<nat>, loops: seq<nat>)
    requires k <= |p| && TablesOk(t, p, k, open, loops)
    ensures OpenersOk(open, p, k) && forall m :: 0 <= m < |open| ==> open[m] < k && Opens(p[open[m]])
  {
    hide ScanIf, LabelsOk, LoopStackOk, FwdsOk;
  }

  /** The table search answers what the program says of name at statement k. */
  lemma LabelKnown(labels: seq<LabelEntry>, p: Program, k: nat, name: string,
                   t: Tables, open: seq<nat>, loops: seq<nat>)
    requires k <= |p| && TablesOk(t, p, k, open, loops) && t.labels == labels
    ensures var i := FindName(labels, name); var d := LabelBefore(p, k, name);
      if i < |labels| then d.Some? && labels[i].addr == Addr(p, d.value) else d.None?
  {
    hide IfStackOk, LoopStackOk, FwdsOk, Addr;
  }

  // ------------------------------------------------------- forward references

  /** The statements before this one are resolved once m forward references are. */
  ghost function Upto(fs: seq<nat>, m: nat): nat
    requires m <= |fs|
  {
    if m == 0 then 0 else fs[m - 1] + 1
  }

  lemma TablesForwards(t: Tables, p: Program, k: nat, open: seq<nat>, loops: seq<nat>)
    requires k <= |p| && TablesOk(t, p, k, open, loops)
    ensures FwdsOk(t.fwds, p, k)
  {
    hide LabelsOk, IfStackOk, LoopStackOk, FwdsOk;
  }

  lemma EncodeNotForward(p: Program, i: nat, r: bool, r': bool)
    requires i < |p| && !IsForward(p, i)
    ensures Encode(p, i, |p|, r) == Encode(p, i, |p|, r')
  {
    hide ExitAddr, AddrOp, SkipTrue, SkipFalse, PlainWord, FindLoop;
  }

  lemma ImageResolved(rom: seq<Byte>, rom': seq<Byte>, p: Program, fs: seq<nat>, m: nat, addr: int)
    requires IsForwards(fs, p) && m < |fs| && ImageOk(rom, p, |p|, Upto(fs, m))
    requires fs[m] < |p| && TakesAddr(p[fs[m]]) && TargetOf(p[fs[m]]).Name?
    requires var d := LabelBefore(p, |p|, TargetOf(p[fs[m]]).name); d.Some? && addr == Addr(p, d.value)
    requires var off := Addr(p, fs[m]) - ROM_BASE;
      && off + 2 <= |rom|
      && rom' == PatchAddr(rom, off, addr)
    ensures ImageOk(rom', p, |p|, Upto(fs, m + 1))
  {
    hide Encode, BytesAt, Upto, Addr, LabelBefore, IsForwards, TargetOf, IsForward, PatchAddr;
    var i := fs[m];
    UptoNext(fs, p, m);
    assert BytesAt(rom, Addr(p, i) - ROM_BASE, Encode(p, i, |p|, i < Upto(fs, m)));
    ResolvedSlot(rom, rom', p, i, addr);
    forall x | 0 <= x < |p|
      ensures BytesAt(rom', Addr(p, x) - ROM_BASE, Encode(p, x, |p|, x < Upto(fs, m + 1)))
    {
      if x != i {
        assert BytesAt(rom, Addr(p, x) - ROM_BASE, Encode(p, x, |p|, x < Upto(fs, m)));
        SlotStaysResolved(rom, rom', p, fs, m, addr, x);
      }
    }
  }

  /** The opcode nibble at off kept, its address replaced. */
  function PatchAddr(rom: seq<Byte>, off: int, addr: int): (r: seq<Byte>)
    requires 0 <= off && off + 2 <= |rom|
    ensures |r| == |rom|
  {
    rom[off := rom[off] / 16 * 16 + addr / 256 % 16][off + 1 := addr % 256]
  }

  ghost predicate IsForwards(fs: seq<nat>, p: Program) { fs == Forwards(p, |p|) }

  lemma UptoNext(fs: seq<nat>, p: Program, m: nat)
    requires m < |fs| && IsForwards(fs, p)
    ensures Upto(fs, m) <= fs[m] < Upto(fs, m + 1)
    ensures fs[m] < |p| && IsForward(p, fs[m])
  {
  }

  lemma SlotsApart(p: Program, i: nat, x: nat)
    requires i < |p| && x < |p| && i != x && TakesAddr(p[i])
    ensures Addr(p, x) + Size(p[x]) <= Addr(p, i) || Addr(p, i) + 2 <= Addr(p, x)
  {
    hide Addr;
    if x < i { AddrMonotone(p, x, i); } else { AddrMonotone(p, i, x); }
  }

  lemma SameEncoding(p: Program, fs: seq<nat>, m: nat, x: nat)
    requires IsForwards(fs, p) && m < |fs| && x < |p| && x != fs[m]
    ensures Encode(p, x, |p|, x < Upto(fs, m + 1)) == Encode(p, x, |p|, x < Upto(fs, m))
  {
    hide Encode, Upto, IsForward, Forwards;
    BetweenForwards(p, fs, m, x);
    if !IsForward(p, x) { EncodeNotForward(p, x, x < Upto(fs, m), x < Upto(fs, m + 1)); }
  }

  lemma SlotStaysResolved(rom: seq<Byte>, rom': seq<Byte>, p: Program, fs: seq<nat>, m: nat, addr: int, x: nat)
    requires IsForwards(fs, p) && m < |fs| && x < |p| && x != fs[m]
    requires fs[m] < |p| && TakesAddr(p[fs[m]])
    requires BytesAt(rom, Addr(p, x) - ROM_BASE, Encode(p, x, |p|, x < Upto(fs, m)))
    requires var off := Addr(p, fs[m]) - ROM_BASE;
      && off + 2 <= |rom|
      && rom' == PatchAddr(rom, off, addr)
    ensures BytesAt(rom', Addr(p, x) - ROM_BASE, Encode(p, x, |p|, x < Upto(fs, m + 1)))
  {
    hide PatchAddr, Encode, BytesAt, Upto, IsForward, Addr, Forwards, LabelBefore;
    var i, off := fs[m], Addr(p, fs[m]) - ROM_BASE;
    SlotsApart(p, i, x);
    SameEncoding(p, fs, m, x);
    OtherBytes(rom, rom', off, addr, Addr(p, x) - ROM_BASE, Encode(p, x, |p|, x < Upto(fs, m)));
  }

  lemma OtherBytes(rom: seq<Byte>, rom': seq<Byte>, off: int, addr: int, a: int, b: seq<Byte>)
    requires 0 <= off && off + 2 <= |rom|
    requires rom' == PatchAddr(rom, off, addr)
    requires BytesAt(rom, a, b) && (a + |b| <= off || off + 2 <= a)
    ensures BytesAt(rom', a, b)
  {
    assert rom'[a..a + |b|] == rom[a..a + |b|];
  }

  lemma ForwardIndex(p: Program, fs: seq<nat>, x: nat) returns (j: nat)
    requires fs == Forwards(p, |p|) && x < |p| && IsForward(p, x)
    ensures j < |fs| && fs[j] == x
    ensures forall m, n :: 0 <= m < n < |fs| ==> fs[m] < fs[n]
  {
    hide Forwards, IsForward;
    assert x in fs;
    j :| 0 <= j < |fs| && fs[j] == x;
  }

  lemma ForwardInside(p: Program, fs: seq<nat>, m: nat)
    requires IsForwards(fs, p) && m < |fs|
    ensures fs[m] < |p| && IsForward(p, fs[m]) && Addr(p, fs[m]) + 2 <= Addr(p, |p|)
  {
    hide Forwards, IsForward, Addr, Size;
    AddrMonotone(p, fs[m], |p|);
    ForwardSize(p, fs[m]);
  }

  lemma ForwardSize(p: Program, i: nat)
    requires i < |p| && IsForward(p, i)
    ensures Size(p[i]) == 2
  {
    hide LabelBefore;
  }

  /** No forward reference lies strictly between consecutive entries of the list. */
  lemma BetweenForwards(p: Program, fs: seq<nat>, m: nat, x: nat)
    requires fs == Forwards(p, |p|) && m < |fs| && x < |p| && x != fs[m]
    ensures IsForward(p, x) ==> (x < Upto(fs, m) <==> x < Upto(fs, m + 1))
  {
    hide Forwards, IsForward;
    if IsForward(p, x) {
      var j := ForwardIndex(p, fs, x);
    }
  }

  lemma ForwardEncodings(p: Program, i: nat, addr: int)
    requires i < |p| && IsForward(p, i)
    requires var d := LabelBefore(p, |p|, TargetOf(p[i]).name); d.Some? && addr == Addr(p, d.value)
    ensures Encode(p, i, |p|, false) == Bytes2(AddrOp(AddrNibble(p[i]), 0))
    ensures Encode(p, i, |p|, true) == Bytes2(AddrOp(AddrNibble(p[i]), addr))
  {
    hide AddrOp, LabelBefore, Addr, ExitAddr, FindLoop, SkipTrue, SkipFalse, PlainWord, Bytes2;
  }

  /** Patching w's address bytes makes it w'. */
  predicate PatchesTo(w: Word, w': Word, addr: int) {
    w as int / 256 / 16 * 16 + addr / 256 % 16 == w' as int / 256 && addr % 256 == w' as int % 256
  }

  lemma AddrOpPatched(hi: Nibble, addr: int)
    ensures PatchesTo(AddrOp(hi, 0), AddrOp(hi, addr), addr)
  {
    hide AddrOp;
    AddrOpBytes(hi, 0);
    AddrOpBytes(hi, addr);
  }

  lemma PatchedWord(rom: seq<Byte>, off: int, w: Word, w': Word, addr: int)
    requires 0 <= off && off + 2 <= |rom| && BytesAt(rom, off, Bytes2(w)) && PatchesTo(w, w', addr)
    ensures BytesAt(PatchAddr(rom, off, addr), off, Bytes2(w'))
  {
    assert rom[off] == rom[off..off + 2][0];
    var r := PatchAddr(rom, off, addr);
    assert r[off..off + 2] == [r[off], r[off + 1]];
  }

  lemma ResolvedSlot(rom: seq<Byte>, rom': seq<Byte>, p: Program, i: nat, addr: int)
    requires i < |p| && IsForward(p, i)
    requires var d := LabelBefore(p, |p|, TargetOf(p[i]).name); d.Some? && addr == Addr(p, d.value)
    requires var off := Addr(p, i) - ROM_BASE;
      && off + 2 <= |rom|
      && BytesAt(rom, off, Encode(p, i, |p|, false))
      && rom' == PatchAddr(rom, off, addr)
    ensures BytesAt(rom', Addr(p, i) - ROM_BASE, Encode(p, i, |p|, true))
  {
    hide Encode, AddrOp, LabelBefore, IsForward, Addr, TargetOf, Bytes2, PatchesTo;
    var off, hi := Addr(p, i) - ROM_BASE, AddrNibble(p[i]);
    ForwardEncodings(p, i, addr);
    AddrOpPatched(hi, addr);
    PatchedWord(rom, off, AddrOp(hi, 0), AddrOp(hi, addr), addr);
  }

  lemma ImageAllResolved(rom: seq<Byte>, p: Program, fs: seq<nat>)
    requires fs == Forwards(p, |p|) && ImageOk(rom, p, |p|, Upto(fs, |fs|))
    ensures ImageOk(rom, p, |p|, |p|)
    ensures forall i :: 0 <= i < |p| && IsForward(p, i) ==> i in fs
  {
    hide Encode, BytesAt, IsForward, Forwards, Addr, Upto;
    forall x | 0 <= x < |p|
      ensures BytesAt(rom, Addr(p, x) - ROM_BASE, Encode(p, x, |p|, x < |p|))
    {
      assert BytesAt(rom, Addr(p, x) - ROM_BASE, Encode(p, x, |p|, x < Upto(fs, |fs|)));
      LastForward(p, fs, x);
      if !IsForward(p, x) { EncodeNotForward(p, x, x < Upto(fs, |fs|), true); }
    }
  }

  /** Every forward reference lies before the end of the list of them. */
  lemma LastForward(p: Program, fs: seq<nat>, x: nat)
    requires fs == Forwards(p, |p|) && x < |p|
    ensures IsForward(p, x) ==> x < Upto(fs, |fs|)
  {
    hide Forwards, IsForward;
    if IsForward(p, x) {
      var j := ForwardIndex(p, fs, x);
      assert j < |fs| - 1 ==> fs[j] < fs[|fs| - 1];
    }
  }

  class Assembler {
    const rom: array<Byte>
    ghost const prog: Program
    ghost const before: seq<Byte>
    var pc: int
    var labels: seq<LabelEntry>
    var fwds: seq<FwdEntry>
    var ifStack: seq<int>
    var loopStack: seq<int>
    var error: bool

    /** The state after k statements: openers open, loops open. */
    ghost predicate Valid(k: nat, open: seq<nat>, loops: seq<nat>)
      reads this, rom
    {
      && k <= |prog| && TablesOk(Tab(), prog, k, open, loops)
      && pc == Addr(prog, k) && pc - ROM_BASE <= rom.Length
      && ImageOk(rom[..], prog, k, 0)
      && BytesKept()
    }

    ghost function Tab(): Tables
      reads this
    {
      Tables(labels, fwds, ifStack, loopStack)
    }

    /** Nothing beyond the code was written. */
    ghost predicate BytesKept()
      reads this, rom
    {
      |before| == rom.Length && forall j :: 0 <= j < rom.Length && pc - ROM_BASE <= j ==> rom[j] == before[j]
    }

    constructor (out: array<Byte>, ghost p: Program)
      ensures rom == out && prog == p && before == out[..] && !error
      ensures Valid(0, [], [])
    {
      rom, prog, before, pc := out, p, out[..], ROM_BASE;
      labels, fwds, ifStack, loopStack, error := [], [], [], [], false;
    }

    method EmitB(b: Byte)
      requires pc >= ROM_BASE
      modifies this`pc, this`error, rom
      ensures pc >= ROM_BASE
      ensures old(pc) - ROM_BASE < rom.Length ==>
        && error == old(error) && pc == old(pc) + 1
        && rom[..] == old(rom[..])[old(pc) - ROM_BASE := b]
      ensures old(pc) - ROM_BASE >= rom.Length ==> error && pc == old(pc) && rom[..] == old(rom[..])
    {
      var off := pc - ROM_BASE;
      if off < 0 || off >= rom.Length { error := true; return; }
      rom[off] := b;
      pc := pc + 1;
    }

    method Emit2(op: Word)
      requires pc >= ROM_BASE
      modifies this`pc, this`error, rom
      ensures pc >= ROM_BASE && (old(error) ==> error)
      ensures old(pc) - ROM_BASE + 2 <= rom.Length ==>
        && error == old(error) && pc == old(pc) + 2
        && BytesAt(rom[..], old(pc) - ROM_BASE, Bytes2(op))
      ensures old(pc) - ROM_BASE + 2 > rom.Length ==> error
      ensures forall j :: 0 <= j < rom.Length && !(old(pc) - ROM_BASE <= j < old(pc) - ROM_BASE + 2) ==>
        rom[j] == old(rom[j])
    {
      EmitB(op / 256);
      EmitB(op % 256);
    }

    /** Points the jump at rom_off to the current PC. */
    method PatchJp(off: int)
      requires 0 <= off && off + 1 < rom.Length && pc >= ROM_BASE
      modifies rom
      ensures BytesAt(rom[..], off, Bytes2(AddrOp(1, pc)))
      ensures forall j :: 0 <= j < rom.Length && !(off <= j < off + 2) ==> rom[j] == old(rom[j])
    {
      var addr := pc % 65536;
      AddrOpBytes(1, pc);
      rom[off] := 0x10 + addr / 256 % 16;
      rom[off + 1] := addr % 256;
    }

    method FindLabel(name: string) returns (i: nat)
      ensures i == FindName(labels, name)
    {
      i := 0;
      while i < |labels| && labels[i].name != name
        invariant 0 <= i <= |labels|
        invariant forall j :: 0 <= j < i ==> labels[j].name != name
      {
        i := i + 1;
      }
      if i < |labels| { FindNameUnique(labels, name, i); }
    }

    method DefineLabel(name: string)
      modifies this`labels, this`error
      ensures old(|labels|) >= MAX_LABELS ==> error && labels == old(labels)
      ensures old(|labels|) < MAX_LABELS ==> error == old(error) && labels == WithLabel(old(labels), name, pc)
    {
      if |labels| >= MAX_LABELS { error := true; return; }
      var i := FindLabel(name);
      if i < |labels| {
        labels := labels[i := LabelEntry(name, pc)];
      } else {
        labels := labels + [LabelEntry(name, pc)];
      }
    }

    /** The outcome of reading statement k. */
    ghost predicate StepOk(k: nat, open: seq<nat>, loops: seq<nat>)
      requires k < |prog|
      reads this, rom
    {
      if error then !Acceptable(prog, rom.Length)
      else StmtFits(prog, k) && Valid(k + 1, open, loops)
    }

    method ParseLabel(name: string, k: nat, ghost open: seq<nat>, ghost loops: seq<nat>)
      requires Valid(k, open, loops) && !error && k < |prog| && prog[k] == Label(name)
      modifies this`labels, this`error
      ensures StepOk(k, open, loops)
    {
      hide TablesOk, ImageOk;
      TableSizes(Tab(), prog, k, open, loops);
      DefineLabel(name);
      if error {
        assert !StmtFits(prog, k);
      } else {
        TablesLabel(old(Tab()), prog, k, open, loops);
        ImageExtended(rom[..], rom[..], prog, k);
      }
    }

    method ParseLoop(k: nat, ghost open: seq<nat>, ghost loops: seq<nat>)
      requires Valid(k, open, loops) && !error && k < |prog| && prog[k].Loop?
      modifies this`loopStack, this`error
      ensures StepOk(k, open, [k] + loops)
    {
      hide TablesOk, ImageOk;
      TableSizes(Tab(), prog, k, open, loops);
      if |loopStack| >= STACK_SZ {
        error := true;
        assert !StmtFits(prog, k);
        return;
      }
      TablesLoop(Tab(), prog, k, open, loops);
      loopStack := loopStack + [pc];
      ImageExtended(rom[..], rom[..], prog, k);
    }

    method ParseAgain(k: nat, ghost open: seq<nat>, ghost loops: seq<nat>)
      requires Valid(k, open, loops) && !error && k < |prog| && prog[k].Again?
      modifies this`loopStack, this`pc, this`error, rom
      ensures StepOk(k, open, if |loops| > 0 then loops[1..] else [])
    {
      hide TablesOk, ImageOk, FindLoop;
      TableSizes(Tab(), prog, k, open, loops);
      if |loopStack| <= 0 {
        error := true;
        assert !StmtFits(prog, k);
        return;
      }
      TablesAgain(Tab(), prog, k, open, loops);
      var target := loopStack[|loopStack| - 1];
      loopStack := loopStack[..|loopStack| - 1];
      ghost var rom0 := rom[..];
      Emit2(0x1000 + target % 4096);
      if error {
        Overflow(prog, k, rom.Length);
      } else {
        ImageExtended(rom0, rom[..], prog, k);
      }
    }

    method ParseIfBegin(c: Cond, k: nat, ghost open: seq<nat>, ghost loops: seq<nat>)
      requires Valid(k, open, loops) && !error && k < |prog| && prog[k] == IfBegin(c)
      modifies this`ifStack, this`pc, this`error, rom
      ensures StepOk(k, [k] + open, loops)
    {
      hide TablesOk, ImageOk, SkipTrue, BytesAt, Encode, StmtFits, Bytes2, Addr, JumpOff;
      TableSizes(Tab(), prog, k, open, loops);
      IfBeginBytes(prog, k);
      ghost var rom0 := rom[..];
      ghost var a := pc - ROM_BASE;
      Emit2(SkipTrue(c));
      if error { Overflow(prog, k, rom.Length); return; }
      IfFits(prog, k);
      if |ifStack| >= STACK_SZ { error := true; return; }
      TablesIf(Tab(), prog, k, open, loops);
      ifStack := ifStack + [pc - ROM_BASE];
      ghost var rom1 := rom[..];
      Emit2(0x1000);
      if error {
        Overflow(prog, k, rom.Length);
      } else {
        ConcatBytes(rom1, rom[..], a, Bytes2(SkipTrue(c)), Bytes2(0x1000));
        ImageExtended(rom0, rom[..], prog, k);
      }
    }

    method ParseElse(k: nat, ghost open: seq<nat>, ghost loops: seq<nat>)
      requires Valid(k, open, loops) && !error && k < |prog| && prog[k].Else?
      modifies this`ifStack, this`pc, this`error, rom
      ensures StepOk(k, if |open| > 0 then Popped(open, prog, k) else [], loops)
    {
      hide TablesOk, ImageOk, OpenersOk, ScanIf, AddrOp, BytesAt, Encode, StmtFits, Bytes2, Addr, Popped;
      TableSizes(Tab(), prog, k, open, loops);
      CloseFits(prog, k);
      if |ifStack| <= 0 { error := true; return; }
      TablesClose(Tab(), prog, k, open, loops);
      TablesOpeners(Tab(), prog, k, open, loops);
      OpenerInside(prog, open[0], k);
      var jpOff := ifStack[|ifStack| - 1];
      var endJpOff := pc - ROM_BASE;
      ghost var rom0 := rom[..];
      Emit2(0x1000);
      ghost var rom1 := rom[..];
      PatchJp(jpOff);
      ifStack := ifStack[..|ifStack| - 1] + [endJpOff];
      if error {
        Overflow(prog, k, rom.Length);
      } else {
        KeepBytes(rom1, rom[..], endJpOff, Bytes2(0x1000), jpOff, jpOff + 2);
        ImagePatched(rom0, rom[..], prog, k, open);
      }
    }

    method ParseEnd(k: nat, ghost open: seq<nat>, ghost loops: seq<nat>)
      requires Valid(k, open, loops) && !error && k < |prog| && prog[k].End?
      modifies this`ifStack, this`error, rom
      ensures StepOk(k, if |open| > 0 then Popped(open, prog, k) else [], loops)
    {
      hide TablesOk, ImageOk, OpenersOk, ScanIf, AddrOp, BytesAt, StmtFits, Bytes2, Addr, Popped;
      TableSizes(Tab(), prog, k, open, loops);
      CloseFits(prog, k);
      if |ifStack| <= 0 { error := true; return; }
      TablesClose(Tab(), prog, k, open, loops);
      TablesOpeners(Tab(), prog, k, open, loops);
      OpenerInside(prog, open[0], k);
      var jpOff := ifStack[|ifStack| - 1];
      ifStack := ifStack[..|ifStack| - 1];
      ghost var rom0 := rom[..];
      PatchJp(jpOff);
      EmptyBytes(rom[..], pc - ROM_BASE);
      ImagePatched(rom0, rom[..], prog, k, open);
    }

    /** The address for target t, or 0 and a forward reference recorded. */
    method LookupTarget(t: Target, k: nat, ghost open: seq<nat>, ghost loops: seq<nat>) returns (addr: int)
      requires Valid(k, open, loops) && !error && k < |prog|
      requires TakesAddr(prog[k]) && TargetOf(prog[k]) == t
      modifies this`fwds, this`error
      ensures error ==> !Acceptable(prog, rom.Length)
      ensures !error ==> TablesOk(Tab(), prog, k + 1, open, loops) && addr == RefAddr(prog, k, false)
    {
      hide TablesOk, ImageOk, StmtFits;
      TableSizes(Tab(), prog, k, open, loops);
      match t {
        case Num(a) =>
          TablesPlain(Tab(), prog, k, open, loops);
          addr := a;
        case Name(name) =>
          var i := FindLabel(name);
          LabelKnown(labels, prog, k, name, Tab(), open, loops);
          if i < |labels| {
            TablesPlain(Tab(), prog, k, open, loops);
            addr := labels[i].addr;
          } else {
            addr := 0;
            if |fwds| >= MAX_FWD {
              error := true;
              ForwardsMonotone(prog, k + 1, |prog|);
              return;
            }
            TablesForward(Tab(), prog, k, open, loops);
            fwds := fwds + [FwdEntry(name, pc - ROM_BASE)];
          }
      }
    }

    /** An opcode nibble with an address: a label seen before, a number, or a forward reference. */
    method EmitAddrOp(hi: Nibble, t: Target, k: nat, ghost open: seq<nat>, ghost loops: seq<nat>)
      requires Valid(k, open, loops) && !error && k < |prog|
      requires TakesAddr(prog[k]) && TargetOf(prog[k]) == t && AddrNibble(prog[k]) == hi
      modifies this`fwds, this`pc, this`error, rom
      ensures StepOk(k, open, loops)
    {
      hide TablesOk, ImageOk, AddrOp, RefAddr, StmtFits, TargetOf, BytesAt, Encode;
      ghost var rom0 := rom[..];
      var addr := LookupTarget(t, k, open, loops);
      if error { return; }
      assert AddrOp(hi, addr) == hi * 4096 + addr % 4096 by { AddrOpIs(hi, addr); }
      Emit2(hi * 4096 + addr % 4096);
      if error {
        Overflow(prog, k, rom.Length);
      } else {
        RefBytes(prog, k);
        ImageExtended(rom0, rom[..], prog, k);
      }
    }

    /** A statement that is the two bytes of op and touches no table. */
    method ParseWord(op: Word, k: nat, ghost open: seq<nat>, ghost loops: seq<nat>)
      requires Valid(k, open, loops) && !error && k < |prog|
      requires Encode(prog, k, k + 1, false) == Bytes2(op) && !TakesAddr(prog[k])
      requires !prog[k].Else? && !prog[k].Again?
      modifies this`pc, this`error, rom
      ensures StepOk(k, open, loops)
    {
      hide TablesOk, ImageOk, Encode;
      TablesPlain(Tab(), prog, k, open, loops);
      ghost var rom0 := rom[..];
      Emit2(op);
      if error {
        Overflow(prog, k, rom.Length);
      } else {
        ImageExtended(rom0, rom[..], prog, k);
      }
    }

    method ParseByte(v: int, k: nat, ghost open: seq<nat>, ghost loops: seq<nat>)
      requires Valid(k, open, loops) && !error && k < |prog| && prog[k] == DataByte(v)
      modifies this`pc, this`error, rom
      ensures StepOk(k, open, loops)
    {
      hide TablesOk, ImageOk;
      TablesPlain(Tab(), prog, k, open, loops);
      ghost var rom0 := rom[..];
      EmitB(v % 256);
      if error {
        Overflow(prog, k, rom.Length);
      } else {
        ImageExtended(rom0, rom[..], prog, k);
      }
    }

    /** Reads one statement, whatever it is. */
    method ParseStmt(s: Stmt, k: nat, ghost open: seq<nat>, ghost loops: seq<nat>)
      returns (ghost open': seq<nat>, ghost loops': seq<nat>)
      requires Valid(k, open, loops) && !error && k < |prog| && prog[k] == s
      modifies this, rom
      ensures StepOk(k, open', loops')
    {
      hide Valid, StepOk, Popped;
      open', loops' := open, loops;
      match s {
        case Label(name) => ParseLabel(name, k, open, loops);
        case Loop =>
          ParseLoop(k, open, loops);
          loops' := [k] + loops;
        case Again =>
          ParseAgain(k, open, loops);
          loops' := if |loops| > 0 then loops[1..] else [];
        case IfBegin(c) =>
          ParseIfBegin(c, k, open, loops);
          open' := [k] + open;
        case Else =>
          ParseElse(k, open, loops);
          open' := if |open| > 0 then Popped(open, prog, k) else [];
        case End =>
          ParseEnd(k, open, loops);
          open' := if |open| > 0 then Popped(open, prog, k) else [];
        case _ => ParseSimple(s, k, open, loops);
      }
    }

    /** Statements that touch no stack: data, one word, or one with an address. */
    method ParseSimple(s: Stmt, k: nat, ghost open: seq<nat>, ghost loops: seq<nat>)
      requires Valid(k, open, loops) && !error && k < |prog| && prog[k] == s
      requires TakesAddr(s) || Plain(s) || s.DataByte? || s.DataWord? || s.Return? || s.IfThen?
      modifies this`fwds, this`pc, this`error, rom
      ensures StepOk(k, open, loops)
    {
      hide Valid, StepOk, PlainWord, SkipFalse;
      if s.DataByte? { ParseByte(s.v, k, open, loops); }
      else if s.DataWord? { ParseWord(s.v / 256 % 256 * 256 + s.v % 256, k, open, loops); }
      else if s.Return? { ParseWord(0x00EE, k, open, loops); }
      else if s.IfThen? { ParseWord(SkipFalse(s.c), k, open, loops); }
      else if s.Jump? { EmitAddrOp(1, s.t, k, open, loops); }
      else if s.Jump0? { EmitAddrOp(11, s.t, k, open, loops); }
      else if s.Call? { EmitAddrOp(2, Name(s.name), k, open, loops); }
      else if s.ISet? { EmitAddrOp(10, s.t, k, open, loops); }
      else { ParseWord(PlainWord(s), k, open, loops); }
    }

    method PatchRef(off: int, addr: int)
      requires 0 <= off && off + 2 <= rom.Length
      modifies rom
      ensures rom[..] == PatchAddr(old(rom[..]), off, addr)
      ensures forall j :: 0 <= j < rom.Length && off + 2 <= j ==> rom[j] == old(rom[j])
    {
      rom[off] := rom[off] / 16 * 16 + addr / 256 % 16;
      rom[off + 1] := addr % 256;
    }

    /** Patches every forward reference with its label's address. */
    method ResolveFwds() returns (ok: bool)
      requires Valid(|prog|, [], [])
      modifies rom
      ensures !ok ==> !Acceptable(prog, rom.Length)
      ensures ok ==> ImageOk(rom[..], prog, |prog|, |prog|) && BytesKept()
      ensures ok ==> forall i :: 0 <= i < |prog| && IsForward(prog, i) ==>
        LabelBefore(prog, |prog|, TargetOf(prog[i]).name).Some?
    {
      hide TablesOk, ImageOk, Addr, LabelBefore, PatchAddr, Forwards;
      ghost var n, fs := |prog|, Forwards(prog, |prog|);
      TablesForwards(Tab(), prog, n, [], []);
      for m := 0 to |fwds|
        invariant Tab() == old(Tab()) && pc == old(pc) && TablesOk(Tab(), prog, n, [], [])
        invariant BytesKept() && ImageOk(rom[..], prog, n, Upto(fs, m))
        invariant forall j :: 0 <= j < m ==> LabelBefore(prog, n, TargetOf(prog[fs[j]]).name).Some?
      {
        var f := fwds[m];
        assert f == FwdEntry(TargetOf(prog[fs[m]]).name, Addr(prog, fs[m]) - ROM_BASE);
        var j := FindLabel(f.name);
        LabelKnown(labels, prog, n, f.name, Tab(), [], []);
        if j >= |labels| { return false; }
        var addr := labels[j].addr;
        ghost var rom0 := rom[..];
        ForwardInside(prog, fs, m);
        PatchRef(f.off, addr);
        ImageResolved(rom0, rom[..], prog, fs, m, addr);
      }
      ImageAllResolved(rom[..], prog, fs);
      return true;
    }
  }

  lemma ImageFinal(rom: seq<Byte>, p: Program)
    requires ImageOk(rom, p, |p|, |p|)
    ensures forall i :: 0 <= i < |p| ==> BytesAt(rom, Addr(p, i) - ROM_BASE, Final(p, i))
  {
    hide Encode, BytesAt, Addr;
    forall i | 0 <= i < |p| ensures BytesAt(rom, Addr(p, i) - ROM_BASE, Final(p, i)) {
      assert BytesAt(rom, Addr(p, i) - ROM_BASE, Encode(p, i, |p|, i < |p|));
    }
  }

  /** Assembles p into out; the number of bytes, or -1. */
  method Compile(out: array<Byte>, p: Program) returns (result: int)
    modifies out
    ensures result >= 0 <==> Acceptable(p, out.Length)
    ensures result >= 0 ==>
      && result == Addr(p, |p|) - ROM_BASE <= out.Length
      && (forall i :: 0 <= i < |p| ==> BytesAt(out[..], Addr(p, i) - ROM_BASE, Final(p, i)))
      && out[result..] == old(out[result..])
  {
    hide TablesOk, ImageOk, StmtFits, BytesAt, Final, Addr;
    var a := new Assembler(out, p);
    ghost var open, loops := [], [];
    var k := 0;
    while k < |p| && !a.error
      invariant k <= |p| && a.rom == out && a.prog == p && a.before == old(out[..])
      invariant a.error ==> !Acceptable(p, out.Length)
      invariant !a.error ==> a.Valid(k, open, loops) && forall j :: 0 <= j < k ==> StmtFits(p, j)
      decreases |p| - k
    {
      open, loops := a.ParseStmt(p[k], k, open, loops);
      k := k + 1;
    }
    if a.error { return -1; }
    TableSizes(a.Tab(), p, k, open, loops);
    if |a.ifStack| > 0 || |a.loopStack| > 0 { return -1; }
    assert open == [] && loops == [];
    TablesForwards(a.Tab(), p, k, open, loops);
    var ok := a.ResolveFwds();
    if !ok { return -1; }
    ImageFinal(out[..], p);
    result := a.pc - ROM_BASE;
    assert out[result..] == old(out[result..]);
  }
}
