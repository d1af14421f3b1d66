/** Trays, media and block nodes of the monitor (core/src/monitor_block.c; change and eject of
    core/src/monitor_cmds.c). */
module BlockTray {
  import opened Runs

  type Text = seq<char>

  const NODES: nat := 16

  datatype Media = Media(name: Text, canEject: bool, canChange: bool, file: Text)

  /** node is the number of the node behind the drive's medium, counted from 1; 0 for none. */
  datatype Tray = Tray(open: bool, file: Text, node: nat)

  /** attached is the number of the drive holding it, counted from 1; 0 for none. */
  datatype Node = Node(used: bool, name: Text, file: Text, readOnly: bool, attached: nat)

  datatype State = State(media: seq<Media>, trays: seq<Tray>, nodes: seq<Node>)

  /** What a device's callback does: accepts (perhaps resetting the machine) or refuses, and may then
      have dropped the medium it held. */
  datatype Callback = Accepts(reset: bool) | Refuses(dropped: bool)

  datatype Reply = Done | DoneReset | NotFound | Failed

  datatype Op =
    | Add(name: Text, file: Text, readOnly: bool, opens: bool)
    | Del(name: Text)
    | OpenTray(device: Text, cb: Callback)
    | CloseTray(device: Text, cb: Callback)
    | RemoveMedium(device: Text)
    | InsertMedium(device: Text, name: Text)
    | ChangeMedium(device: Text, file: Text, cb: Callback)
    | TextChange(device: Text, file: Text, cb: Callback)
    | TextEject(device: Text, cb: Callback)

  predicate Sized(s: State) { |s.trays| == |s.media| && |s.nodes| == NODES }

  // --------------------------------------------------------------------- look-ups

  function Lower(c: char): char { if 'A' <= c <= 'Z' then c - 'A' + 'a' else c }

  predicate SameName(a: Text, b: Text) { |a| == |b| && forall i :: 0 <= i < |a| ==> Lower(a[i]) == Lower(b[i]) }

  /** The first device of that name, from i on. */
  function Device(ms: seq<Media>, name: Text, i: nat): (r: Option<nat>)
    requires i <= |ms|
    ensures r.Some? ==> r.value < |ms|
    decreases |ms| - i
  {
    if i == |ms| then None else if SameName(ms[i].name, name) then Some(i) else Device(ms, name, i + 1)
  }

  function FindNode(ns: seq<Node>, name: Text, i: nat): (r: Option<nat>)
    requires i <= |ns|
    ensures r.Some? ==> i <= r.value < |ns| && ns[r.value].used && ns[r.value].name == name
    ensures r.None? ==> forall j :: i <= j < |ns| ==> !ns[j].used || ns[j].name != name
    decreases |ns| - i
  {
    if i == |ns| then None else if ns[i].used && ns[i].name == name then Some(i) else FindNode(ns, name, i + 1)
  }

  function FreeNode(ns: seq<Node>, i: nat): (r: Option<nat>)
    requires i <= |ns|
    ensures r.Some? ==> i <= r.value < |ns| && !ns[r.value].used
    decreases |ns| - i
  {
    if i == |ns| then None else if !ns[i].used then Some(i) else FreeNode(ns, i + 1)
  }

  predicate Removable(m: Media) { m.canEject && m.canChange }

  function Result(cb: Callback): Reply { if cb.Accepts? && cb.reset then DoneReset else Done }

  // ------------------------------------------------------------------- operations

  function Detach(s: State, i: nat): (t: State)
    requires Sized(s) && i < |s.trays|
    ensures Sized(t) && t.media == s.media
  {
    var n := s.trays[i].node;
    s.(trays := s.trays[i := s.trays[i].(node := 0)],
       nodes := if 0 < n <= NODES then s.nodes[n - 1 := s.nodes[n - 1].(attached := 0)] else s.nodes)
  }

  function Empty(s: State, i: nat): (t: State)
    requires Sized(s) && i < |s.trays|
    ensures Sized(t) && t.media == s.media
  {
    Detach(s.(trays := s.trays[i := s.trays[i].(file := [])]), i)
  }

  function SetTray(s: State, i: nat, t: Tray): State
    requires Sized(s) && i < |s.trays|
  {
    s.(trays := s.trays[i := t])
  }

  function SetFile(s: State, i: nat, file: Text): State
    requires Sized(s) && i < |s.media|
  {
    s.(media := s.media[i := s.media[i].(file := file)])
  }

  /** A refused change: the device may be left empty. */
  function Refused(s: State, i: nat, cb: Callback): State
    requires Sized(s) && i < |s.media| && cb.Refuses?
  {
    if cb.dropped then SetFile(s, i, []) else s
  }

  function DoOpen(s: State, i: nat, cb: Callback): (State, Reply)
    requires Sized(s) && i < |s.media|
  {
    var m, t := s.media[i], s.trays[i];
    if !Removable(m) then (s, Failed)
    else if t.open then (s, Done)
    else if m.file == [] then (SetTray(s, i, t.(open := true)), Done)
    else if cb.Refuses? then (s, Failed)
    else (SetFile(SetTray(s, i, t.(open := true, file := m.file)), i, []), Result(cb))
  }

  function DoClose(s: State, i: nat, cb: Callback): (State, Reply)
    requires Sized(s) && i < |s.media|
  {
    var m, t := s.media[i], s.trays[i];
    if !Removable(m) then (s, Failed)
    else if !t.open then (s, Done)
    else if t.file == [] then (SetTray(s, i, t.(open := false)), Done)
    else if cb.Refuses? then (Refused(s, i, cb), Failed)
    else (SetFile(SetTray(s, i, t.(open := false, file := [])), i, t.file), Result(cb))
  }

  function DoInsert(s: State, i: nat, name: Text): (State, Reply)
    requires Sized(s) && i < |s.media|
  {
    var n := FindNode(s.nodes, name, 0);
    var t := s.trays[i];
    if n.None? || !Removable(s.media[i]) || !t.open || s.nodes[n.value].attached != 0 || t.file != [] then (s, Failed)
    else
      (s.(trays := s.trays[i := t.(file := s.nodes[n.value].file, node := n.value + 1)],
          nodes := s.nodes[n.value := s.nodes[n.value].(attached := i + 1)]), Done)
  }

  function DoChange(s: State, i: nat, file: Text, cb: Callback): (State, Reply)
    requires Sized(s) && i < |s.media|
  {
    if !Removable(s.media[i]) then (s, Failed)
    else if s.trays[i].open then
      var e := Empty(s, i);
      var (t, r) := DoClose(SetTray(e, i, e.trays[i].(file := file)), i, cb);
      (if r == Failed then SetTray(t, i, t.trays[i].(file := [])) else t, r)
    else if cb.Refuses? then (Refused(s, i, cb), Failed)
    else (SetFile(Detach(s, i), i, file), Result(cb))
  }

  function DoAdd(s: State, name: Text, file: Text, readOnly: bool, opens: bool): (State, Reply)
    requires Sized(s)
  {
    var n := FreeNode(s.nodes, 0);
    if FindNode(s.nodes, name, 0).Some? || !opens || file == [] || n.None? then (s, Failed)
    else (s.(nodes := s.nodes[n.value := Node(true, name, file, readOnly, 0)]), Done)
  }

  function DoDel(s: State, name: Text): (State, Reply)
    requires Sized(s)
  {
    var n := FindNode(s.nodes, name, 0);
    if n.None? || s.nodes[n.value].attached != 0 then (s, Failed)
    else (s.(nodes := s.nodes[n.value := s.nodes[n.value].(used := false)]), Done)
  }

  /** The console's change and eject take the tray along. */
  function DoTextChange(s: State, i: nat, file: Text, cb: Callback): (State, Reply)
    requires Sized(s) && i < |s.media|
  {
    if file == [] || !s.media[i].canChange then (s, Failed)
    else if cb.Refuses? then (Refused(s, i, cb), Failed)
    else
      var e := Empty(SetFile(s, i, file), i);
      (SetTray(e, i, e.trays[i].(open := false)), Result(cb))
  }

  function DoTextEject(s: State, i: nat, cb: Callback): (State, Reply)
    requires Sized(s) && i < |s.media|
  {
    if !s.media[i].canEject || cb.Refuses? then (s, Failed)
    else
      var e := Empty(SetFile(s, i, []), i);
      (SetTray(e, i, e.trays[i].(open := true)), Result(cb))
  }

  function DeviceOf(op: Op): Text
    requires !op.Add? && !op.Del?
  {
    op.device
  }

  function Apply(s: State, op: Op): (State, Reply)
    requires Sized(s)
  {
    if op.Add? then DoAdd(s, op.name, op.file, op.readOnly, op.opens)
    else if op.Del? then DoDel(s, op.name)
    else
      match Device(s.media, DeviceOf(op), 0)
      case None => (s, NotFound)
      case Some(i) => ApplyTo(s, i, op)
  }

  function ApplyTo(s: State, i: nat, op: Op): (State, Reply)
    requires Sized(s) && i < |s.media| && !op.Add? && !op.Del?
  {
    match op
    case OpenTray(_, cb) => DoOpen(s, i, cb)
    case CloseTray(_, cb) => DoClose(s, i, cb)
    case RemoveMedium(_) => if Removable(s.media[i]) && s.trays[i].open then (Empty(s, i), Done) else (s, Failed)
    case InsertMedium(_, name) => DoInsert(s, i, name)
    case ChangeMedium(_, file, cb) => DoChange(s, i, file, cb)
    case TextChange(_, file, cb) => DoTextChange(s, i, file, cb)
    case TextEject(_, cb) => DoTextEject(s, i, cb)
  }

  // -------------------------------------------------------------------- invariant

  predicate TrayLinked(ts: seq<Tray>, ns: seq<Node>, i: nat)
    requires i < |ts| && |ns| == NODES
  {
    ts[i].node != 0 ==> ts[i].node <= NODES && ns[ts[i].node - 1].attached == i + 1
  }

  predicate NodeLinked(ts: seq<Tray>, ns: seq<Node>, n: nat)
    requires n < |ns|
  {
    ns[n].attached != 0 ==> ns[n].used && ns[n].attached <= |ts| && ts[ns[n].attached - 1].node == n + 1
  }

  /** Drives and nodes name each other. */
  predicate Linked(ts: seq<Tray>, ns: seq<Node>)
    requires |ns| == NODES
  {
    (forall i :: 0 <= i < |ts| ==> TrayLinked(ts, ns, i)) && (forall n :: 0 <= n < NODES ==> NodeLinked(ts, ns, n))
  }

  /** A medium is in the tray only while it is open, in the device only while it is closed. */
  predicate Placed(ms: seq<Media>, ts: seq<Tray>)
    requires |ms| == |ts|
  {
    forall i :: 0 <= i < |ts| ==> InPlace(ms[i].file, ts[i])
  }

  predicate InPlace(file: Text, t: Tray) { if t.open then file == [] else t.file == [] }

  /** No two nodes share a name, and all have files. */
  predicate Named(ns: seq<Node>) {
    && (forall m, n :: 0 <= m < n < |ns| && ns[m].used && ns[n].used ==> ns[m].name != ns[n].name)
    && (forall n :: 0 <= n < |ns| && ns[n].used ==> ns[n].file != [])
  }

  /** The medium in a drive, wherever it is. */
  function Medium(file: Text, t: Tray): Text { if t.open then t.file else file }

  /** A drive's node is the file of the medium it holds. */
  predicate Backs(file: Text, t: Tray, ns: seq<Node>) {
    t.node != 0 ==> t.node <= |ns| && Medium(file, t) == ns[t.node - 1].file && Medium(file, t) != []
  }

  predicate Backed(ms: seq<Media>, ts: seq<Tray>, ns: seq<Node>)
    requires |ms| == |ts|
  {
    forall i :: 0 <= i < |ts| ==> Backs(ms[i].file, ts[i], ns)
  }

  predicate Inv(s: State) {
    Sized(s) && Linked(s.trays, s.nodes) && Placed(s.media, s.trays) && Named(s.nodes) && Backed(s.media, s.trays, s.nodes)
  }

  /** No node backs two drives, and none is deleted while a drive has it. */
  lemma NodesAreExclusive(s: State)
    requires Inv(s)
    ensures forall i, j :: 0 <= i < j < |s.trays| && s.trays[i].node != 0 ==> s.trays[i].node != s.trays[j].node
    ensures forall i :: 0 <= i < |s.trays| && s.trays[i].node != 0 ==>
      s.trays[i].node <= NODES && s.nodes[s.trays[i].node - 1].used
  {
    forall i | 0 <= i < |s.trays| && s.trays[i].node != 0
      ensures s.trays[i].node <= NODES && s.nodes[s.trays[i].node - 1].attached == i + 1 && s.nodes[s.trays[i].node - 1].used
    {
      assert TrayLinked(s.trays, s.nodes, i);
      assert NodeLinked(s.trays, s.nodes, s.trays[i].node - 1);
    }
  }

  /** Detaching a drive's node unlinks both. */
  lemma DetachLinked(s: State, i: nat)
    requires Sized(s) && i < |s.trays| && Linked(s.trays, s.nodes)
    ensures Linked(Detach(s, i).trays, Detach(s, i).nodes)
  {
    var t := Detach(s, i);
    assert TrayLinked(s.trays, s.nodes, i);
    forall j | 0 <= j < |t.trays| ensures TrayLinked(t.trays, t.nodes, j) { assert TrayLinked(s.trays, s.nodes, j); }
    forall n | 0 <= n < NODES ensures NodeLinked(t.trays, t.nodes, n) { assert NodeLinked(s.trays, s.nodes, n); }
  }

  lemma DetachNamed(s: State, i: nat)
    requires Sized(s) && i < |s.trays| && Named(s.nodes)
    ensures Named(Detach(s, i).nodes)
  {
  }

  /** Only a tray's node matters to the links. */
  lemma SameNodesLinked(ts: seq<Tray>, us: seq<Tray>, ns: seq<Node>)
    requires |ns| == NODES && Linked(ts, ns) && |us| == |ts| && forall i :: 0 <= i < |ts| ==> us[i].node == ts[i].node
    ensures Linked(us, ns)
  {
    forall i | 0 <= i < |us| ensures TrayLinked(us, ns, i) { assert TrayLinked(ts, ns, i); }
    forall n | 0 <= n < NODES ensures NodeLinked(us, ns, n) { assert NodeLinked(ts, ns, n); }
  }

  /** What detaching does to the drive itself and to the others. */
  lemma DetachTrays(s: State, i: nat)
    requires Sized(s) && i < |s.trays|
    ensures Detach(s, i).trays == s.trays[i := s.trays[i].(node := 0)] && Detach(s, i).media == s.media
  {
  }

  /** Two node tables with the same files. */
  predicate SameFiles(ns: seq<Node>, os: seq<Node>) { |ns| == |os| && forall n :: 0 <= n < |ns| ==> ns[n].file == os[n].file }

  lemma DetachFiles(s: State, i: nat)
    requires Sized(s) && i < |s.trays|
    ensures SameFiles(s.nodes, Detach(s, i).nodes) && SameFiles(s.nodes, s.nodes)
  {
  }

  lemma OtherDrives(s: State, i: nat, file: Text, t: Tray, nodes: seq<Node>)
    requires Sized(s) && i < |s.media| && Placed(s.media, s.trays) && Backed(s.media, s.trays, s.nodes)
    requires SameFiles(s.nodes, nodes) && InPlace(file, t) && Backs(file, t, nodes)
    ensures var ms, ts := s.media[i := s.media[i].(file := file)], s.trays[i := t];
      Placed(ms, ts) && Backed(ms, ts, nodes)
  {
    hide InPlace;
    var ms, ts := s.media[i := s.media[i].(file := file)], s.trays[i := t];
    forall j | 0 <= j < |ts| ensures InPlace(ms[j].file, ts[j]) && Backs(ms[j].file, ts[j], nodes) {
      assert InPlace(s.media[j].file, s.trays[j]) && Backs(s.media[j].file, s.trays[j], s.nodes);
    }
  }

  /** Any change to one drive that leaves its medium in the right place, and its node alone or detached,
      keeps the invariant if the node still backs the medium. */
  lemma DriveKeeps(s: State, i: nat, file: Text, t: Tray, nodes: seq<Node>)
    requires Inv(s) && i < |s.media| && InPlace(file, t) && Backs(file, t, s.nodes)
    requires (t.node == s.trays[i].node && nodes == s.nodes) || (t.node == 0 && nodes == Detach(s, i).nodes)
    ensures Inv(State(s.media[i := s.media[i].(file := file)], s.trays[i := t], nodes))
  {
    hide Named, Linked, TrayLinked, NodeLinked, InPlace, Placed, Backed;
    var us := s.trays[i := t];
    DetachFiles(s, i);
    OtherDrives(s, i, file, t, nodes);
    if t.node == s.trays[i].node && nodes == s.nodes {
      SameNodesLinked(s.trays, us, s.nodes);
    } else {
      DetachLinked(s, i);
      DetachNamed(s, i);
      DetachTrays(s, i);
      SameNodesLinked(Detach(s, i).trays, us, nodes);
    }
  }

  /** A drive by itself. */
  predicate DriveOk(s: State, i: nat)
    requires Sized(s) && i < |s.media|
  {
    InPlace(s.media[i].file, s.trays[i]) && Backs(s.media[i].file, s.trays[i], s.nodes)
  }

  lemma DriveAt(s: State, i: nat)
    requires Inv(s) && i < |s.media|
    ensures Sized(s) && DriveOk(s, i)
  {
    hide Linked, Named;
  }

  lemma OpenKeeps(s: State, i: nat, cb: Callback)
    requires Inv(s) && i < |s.media|
    ensures Inv(DoOpen(s, i, cb).0)
  {
    hide Linked, Named, Placed, Backed;
    var m, t := s.media[i], s.trays[i];
    DriveAt(s, i);
    if Removable(m) && !t.open && !(m.file != [] && cb.Refuses?) {
      var t' := t.(open := true, file := m.file);
      DriveKeeps(s, i, [], t', s.nodes);
      assert m.file == [] ==> t' == t.(open := true) && s.media[i := m.(file := [])] == s.media;
    }
  }

  lemma CloseKeeps(s: State, i: nat, cb: Callback)
    requires Inv(s) && i < |s.media|
    ensures Inv(DoClose(s, i, cb).0)
  {
    hide Linked, Named, Placed, Backed;
    var m, t := s.media[i], s.trays[i];
    DriveAt(s, i);
    if Removable(m) && t.open {
      if t.file == [] {
        DriveKeeps(s, i, m.file, t.(open := false), s.nodes);
        assert s.media[i := m.(file := m.file)] == s.media;
      } else if cb.Accepts? {
        DriveKeeps(s, i, t.file, t.(open := false, file := []), s.nodes);
      } else {
        assert s.media[i := m.(file := [])] == s.media;
      }
    }
  }

  /** A refused change leaves everything sound exactly when no node is left behind an emptied drive. */
  lemma RefusedExactly(s: State, i: nat, cb: Callback)
    requires Inv(s) && i < |s.media| && cb.Refuses?
    ensures Inv(Refused(s, i, cb)) <==> !(cb.dropped && !s.trays[i].open && s.trays[i].node != 0)
  {
    hide Linked, Named, Placed;
    DriveAt(s, i);
    var m, t := s.media[i], s.trays[i];
    if cb.dropped {
      if t.open || t.node == 0 {
        DriveKeeps(s, i, [], t, s.nodes);
        assert s.trays[i := t] == s.trays;
      } else {
        assert !Backs([], t, s.nodes);
      }
    }
  }

  lemma EmptyIs(s: State, i: nat)
    requires Sized(s) && i < |s.trays|
    ensures Empty(s, i) == State(s.media, s.trays[i := s.trays[i].(file := [], node := 0)], Detach(s, i).nodes)
  {
  }

  /** Emptying a drive and then giving it a tray and a file. */
  lemma EmptyKeeps(s: State, i: nat, file: Text, t: Tray)
    requires Inv(s) && i < |s.media| && InPlace(file, t) && t.node == 0
    ensures Inv(SetFile(SetTray(Empty(s, i), i, t), i, file))
  {
    hide Linked, Named, InPlace, Placed, Detach, Backed;
    DriveKeeps(s, i, file, t, Detach(s, i).nodes);
    EmptyIs(s, i);
    var ts := s.trays[i := s.trays[i].(file := [], node := 0)];
    assert ts[i := t] == s.trays[i := t];
  }

  lemma RemoveKeeps(s: State, i: nat)
    requires Inv(s) && i < |s.media|
    ensures Inv(Empty(s, i)) && Empty(s, i).trays[i] == Tray(s.trays[i].open, [], 0) && Empty(s, i).media == s.media
  {
    hide Linked, Named, Placed, Detach, Backed;
    DriveAt(s, i);
    var t := s.trays[i];
    DriveKeeps(s, i, if t.open then s.media[i].file else s.media[i].file, t.(file := [], node := 0), Detach(s, i).nodes);
    EmptyIs(s, i);
    assert s.media[i := s.media[i].(file := s.media[i].file)] == s.media;
  }

  lemma InsertKeeps(s: State, i: nat, name: Text)
    requires Inv(s) && i < |s.media|
    ensures Inv(DoInsert(s, i, name).0)
  {
    hide Linked, Placed, Named, Backed;
    DriveAt(s, i);
    if DoInsert(s, i, name).1 == Done {
      var k := FindNode(s.nodes, name, 0).value;
      InsertLinked(s, i, k);
      InsertNamed(s, i, k);
      OtherDrives(s, i, s.media[i].file, s.trays[i].(file := s.nodes[k].file, node := k + 1), DoInsert(s, i, name).0.nodes);
      assert s.media[i := s.media[i].(file := s.media[i].file)] == s.media;
    }
  }

  lemma InsertLinked(s: State, i: nat, k: nat)
    requires Inv(s) && i < |s.media| && k < NODES && s.nodes[k].used && s.nodes[k].attached == 0 && s.trays[i].node == 0
    ensures Linked(s.trays[i := s.trays[i].(file := s.nodes[k].file, node := k + 1)], s.nodes[k := s.nodes[k].(attached := i + 1)])
  {
    hide Placed, Named, Backed;
    var ts, ns := s.trays[i := s.trays[i].(file := s.nodes[k].file, node := k + 1)], s.nodes[k := s.nodes[k].(attached := i + 1)];
    forall j | 0 <= j < |ts| ensures TrayLinked(ts, ns, j) { assert TrayLinked(s.trays, s.nodes, j); }
    forall n | 0 <= n < NODES ensures NodeLinked(ts, ns, n) { assert NodeLinked(s.trays, s.nodes, n); }
  }

  lemma InsertNamed(s: State, i: nat, k: nat)
    requires Inv(s) && i < |s.media| && k < NODES && s.nodes[k].used
    ensures Named(s.nodes[k := s.nodes[k].(attached := i + 1)]) && s.nodes[k].file != []
  {
    hide Linked, Placed, Backed;
  }

  lemma ChangeKeeps(s: State, i: nat, file: Text, cb: Callback)
    requires Inv(s) && i < |s.media| && !Drops(s, i, cb)
    ensures Inv(DoChange(s, i, file, cb).0)
  {
    hide Linked, Placed, Named, Backed, Detach;
    DriveAt(s, i);
    var m, t := s.media[i], s.trays[i];
    if Removable(m) && t.open {
      RemoveKeeps(s, i);
      var e := Empty(s, i);
      ChangedOpen(e, i, file, cb);
    } else if Removable(m) && cb.Refuses? {
      RefusedExactly(s, i, cb);
    } else if Removable(m) {
      DetachTrays(s, i);
      DriveKeeps(s, i, file, t.(node := 0), Detach(s, i).nodes);
    }
  }

  /** An open, empty drive: the file goes in and the tray closes, or it is empty again. */
  lemma ChangedOpen(e: State, i: nat, file: Text, cb: Callback)
    requires Inv(e) && i < |e.media| && e.trays[i] == Tray(true, [], 0)
    ensures var (t, r) := DoClose(SetTray(e, i, e.trays[i].(file := file)), i, cb);
      Inv(if r == Failed then SetTray(t, i, t.trays[i].(file := [])) else t)
  {
    hide Linked, Placed, Named, Backed, Detach;
    DriveAt(e, i);
    var u := e.trays[i].(file := file);
    DriveKeeps(e, i, e.media[i].file, u, e.nodes);
    assert e.media[i := e.media[i].(file := e.media[i].file)] == e.media;
    var s1 := SetTray(e, i, u);
    CloseKeeps(s1, i, cb);
    var (t, r) := DoClose(s1, i, cb);
    DriveAt(t, i);
    if r == Failed {
      DriveKeeps(t, i, t.media[i].file, t.trays[i].(file := []), t.nodes);
      assert t.media[i := t.media[i].(file := t.media[i].file)] == t.media;
    }
  }

  /** A change refused by a device that drops its medium, with the tray closed and a node behind it. */
  predicate Drops(s: State, i: nat, cb: Callback)
    requires Sized(s) && i < |s.media|
  {
    cb.Refuses? && cb.dropped && !s.trays[i].open && s.trays[i].node != 0
  }

  lemma TextChangeKeeps(s: State, i: nat, file: Text, cb: Callback)
    requires Inv(s) && i < |s.media| && !Drops(s, i, cb)
    ensures Inv(DoTextChange(s, i, file, cb).0)
  {
    hide Linked, Placed, Named, Backed, Detach;
    if file != [] && s.media[i].canChange {
      if cb.Refuses? {
        RefusedExactly(s, i, cb);
      } else {
        TextIs(s, i, file, false);
        EmptyKeeps(s, i, file, Tray(false, [], 0));
      }
    }
  }

  lemma TextEjectKeeps(s: State, i: nat, cb: Callback)
    requires Inv(s) && i < |s.media|
    ensures Inv(DoTextEject(s, i, cb).0)
  {
    hide Linked, Placed, Named, Backed, Detach;
    TextIs(s, i, [], true);
    EmptyKeeps(s, i, [], Tray(true, [], 0));
  }

  lemma TextIs(s: State, i: nat, file: Text, open: bool)
    requires Sized(s) && i < |s.media|
    ensures var e := Empty(SetFile(s, i, file), i);
      SetTray(e, i, e.trays[i].(open := open)) == SetFile(SetTray(Empty(s, i), i, Tray(open, [], 0)), i, file)
  {
    EmptyIs(s, i);
    EmptyIs(SetFile(s, i, file), i);
  }

  lemma AddKeeps(s: State, name: Text, file: Text, readOnly: bool, opens: bool)
    requires Inv(s)
    ensures Inv(DoAdd(s, name, file, readOnly, opens).0)
  {
    hide Placed;
    var t, r := DoAdd(s, name, file, readOnly, opens).0, DoAdd(s, name, file, readOnly, opens).1;
    if r == Done {
      var k := FreeNode(s.nodes, 0).value;
      assert NodeLinked(s.trays, s.nodes, k);
      forall i | 0 <= i < |s.trays| ensures TrayLinked(t.trays, t.nodes, i) && Backs(t.media[i].file, t.trays[i], t.nodes) {
        assert TrayLinked(s.trays, s.nodes, i) && Backs(s.media[i].file, s.trays[i], s.nodes);
      }
      forall n | 0 <= n < NODES ensures NodeLinked(t.trays, t.nodes, n) { assert NodeLinked(s.trays, s.nodes, n); }
    }
  }

  lemma DelKeeps(s: State, name: Text)
    requires Inv(s)
    ensures Inv(DoDel(s, name).0)
  {
    hide Placed;
    var t, r := DoDel(s, name).0, DoDel(s, name).1;
    if r == Done {
      forall i | 0 <= i < |s.trays| ensures TrayLinked(t.trays, t.nodes, i) && Backs(t.media[i].file, t.trays[i], t.nodes) {
        assert TrayLinked(s.trays, s.nodes, i) && Backs(s.media[i].file, s.trays[i], s.nodes);
      }
      forall n | 0 <= n < NODES ensures NodeLinked(t.trays, t.nodes, n) { assert NodeLinked(s.trays, s.nodes, n); }
    }
  }

  /** The operation is one whose refused change drops a closed drive's medium from under its node. */
  predicate Strands(s: State, op: Op)
    requires Sized(s)
  {
    && (op.ChangeMedium? || (op.TextChange? && op.file != []))
    && var i := Device(s.media, op.device, 0);
      && i.Some? && Drops(s, i.value, op.cb)
      && (if op.ChangeMedium? then Removable(s.media[i.value]) else s.media[i.value].canChange)
  }

  /** Every operation keeps everything, exactly when it does not strand a node. */
  lemma StepExactly(s: State, op: Op)
    requires Inv(s)
    ensures Inv(Apply(s, op).0) <==> !Strands(s, op)
  {
    hide Linked, Placed, Named, Backed, DoOpen, DoClose, DoInsert, DoChange, DoAdd, DoDel, DoTextChange, DoTextEject, Empty;
    if op.Add? {
      AddKeeps(s, op.name, op.file, op.readOnly, op.opens);
    } else if op.Del? {
      DelKeeps(s, op.name);
    } else if Device(s.media, DeviceOf(op), 0).Some? {
      DeviceStep(s, Device(s.media, DeviceOf(op), 0).value, op);
    }
  }

  lemma DeviceStep(s: State, i: nat, op: Op)
    requires Inv(s) && !op.Add? && !op.Del? && Device(s.media, DeviceOf(op), 0) == Some(i)
    ensures Inv(ApplyTo(s, i, op).0) <==> !Strands(s, op)
  {
    hide Linked, Placed, Named, Backed, DoOpen, DoClose, DoInsert, DoTextEject, Empty;
    match op {
      case OpenTray(_, cb) => OpenKeeps(s, i, cb);
      case CloseTray(_, cb) => CloseKeeps(s, i, cb);
      case RemoveMedium(_) => RemoveKeeps(s, i);
      case InsertMedium(_, name) => InsertKeeps(s, i, name);
      case ChangeMedium(_, file, cb) => if Drops(s, i, cb) { RefusedExactly(s, i, cb); } else { ChangeKeeps(s, i, file, cb); }
      case TextChange(_, file, cb) => if Drops(s, i, cb) { RefusedExactly(s, i, cb); } else { TextChangeKeeps(s, i, file, cb); }
      case TextEject(_, cb) => TextEjectKeeps(s, i, cb);
    }
  }

  function ApplyAll(s: State, ops: seq<Op>): (t: State)
    requires Sized(s)
    ensures Sized(t)
    decreases |ops|
  {
    if ops == [] then s else
      ApplySized(s, ops[0]);
      ApplyAll(Apply(s, ops[0]).0, ops[1..])
  }

  lemma ApplySized(s: State, op: Op)
    requires Sized(s)
    ensures Sized(Apply(s, op).0)
  {
    hide Detach, Device, FindNode, FreeNode;
  }

  /** No operation of a run strands a node. */
  predicate NoneStrands(s: State, ops: seq<Op>)
    requires Sized(s)
    decreases |ops|
  {
    ops == [] || (!Strands(s, ops[0]) && (ApplySized(s, ops[0]); NoneStrands(Apply(s, ops[0]).0, ops[1..])))
  }

  /** Over every run of operations that strands no node, everything holds throughout. */
  lemma {:induction false} RunKeeps(s: State, ops: seq<Op>)
    requires Inv(s) && NoneStrands(s, ops)
    ensures Inv(ApplyAll(s, ops))
    decreases |ops|
  {
    hide Linked, Placed, Named, Backed, Apply, Strands;
    if ops != [] {
      StepExactly(s, ops[0]);
      RunKeeps(Apply(s, ops[0]).0, ops[1..]);
    }
  }

  /** Drives registered, trays closed, no nodes yet. */
  predicate Fresh(s: State) {
    && Sized(s) && (forall i :: 0 <= i < |s.trays| ==> s.trays[i] == Tray(false, [], 0))
    && forall n :: 0 <= n < NODES ==> s.nodes[n] == Node(false, [], [], false, 0)
  }

  lemma InvInit(s: State)
    requires Fresh(s)
    ensures Inv(s)
  {
  }

  /** What stranding leads to: a second node goes in, and the first stays busy with no drive behind it. */
  lemma StrandedNodeStaysBusy(s: State, i: nat, file: Text, name: Text, n: nat, k: nat)
    requires Inv(s) && i < |s.media| && Removable(s.media[i]) && !s.trays[i].open && s.trays[i].node == n + 1
    requires FindNode(s.nodes, name, 0) == Some(k) && s.nodes[k].attached == 0
    ensures var s1 := DoChange(s, i, file, Refuses(true)).0;
      var s2 := DoOpen(s1, i, Accepts(false)).0;
      var (s3, r) := DoInsert(s2, i, name);
      && r == Done && s3.trays[i].node == k + 1 && k != n && n < NODES && s3.nodes[n].used && s3.nodes[n].attached == i + 1
      && !Linked(s3.trays, s3.nodes) && (FindNode(s3.nodes, s3.nodes[n].name, 0) == Some(n) ==> DoDel(s3, s3.nodes[n].name).1 == Failed)
  {
    hide Placed, Named, FindNode;
    assert TrayLinked(s.trays, s.nodes, i) && NodeLinked(s.trays, s.nodes, n);
    DriveAt(s, i);
    var s1 := DoChange(s, i, file, Refuses(true)).0;
    var s2 := DoOpen(s1, i, Accepts(false)).0;
    var s3 := DoInsert(s2, i, name).0;
    assert s2.nodes == s.nodes && s2.trays[i] == s.trays[i].(open := true);
    assert !NodeLinked(s3.trays, s3.nodes, n);
  }

  /** Some run of operations leads from s to t. */
  ghost predicate Reaches(s: State, t: State) { Sized(s) && exists ops :: ApplyAll(s, ops) == t }

  lemma {:induction false} ApplyMore(s: State, ops: seq<Op>, op: Op)
    requires Sized(s)
    ensures ApplyAll(s, ops + [op]) == Apply(ApplyAll(s, ops), op).0
    decreases |ops|
  {
    hide Apply;
    ApplySized(s, (ops + [op])[0]);
    if ops == [] {
      assert ([op] + [])[1..] == [] && ops + [op] == [op];
    } else {
      assert (ops + [op])[1..] == ops[1..] + [op];
      ApplyMore(Apply(s, ops[0]).0, ops[1..], op);
    }
  }

  /** One operation further, nothing stranded. */
  lemma ReachStep(s: State, t: State, op: Op)
    requires Reaches(s, t) && Inv(t) && !Strands(t, op)
    ensures Reaches(s, Apply(t, op).0) && Inv(Apply(t, op).0)
  {
    hide Apply, ApplyAll, Linked, Placed, Named, Backed, Strands;
    var ops :| ApplyAll(s, ops) == t;
    ApplyMore(s, ops, op);
    StepExactly(t, op);
  }

  /** Looking a device up does not depend on the media. */
  lemma {:induction false} DeviceByName(ms: seq<Media>, os: seq<Media>, name: Text, k: nat)
    requires k <= |ms| == |os| && forall j :: 0 <= j < |ms| ==> ms[j].name == os[j].name
    ensures Device(ms, name, k) == Device(os, name, k)
    decreases |ms| - k
  {
    hide SameName;
    if k < |ms| { DeviceByName(ms, os, name, k + 1); }
  }

  lemma NoneNamed(ns: seq<Node>, name: Text, i: nat)
    requires i <= |ns| && forall n :: i <= n < |ns| ==> !ns[n].used
    ensures FindNode(ns, name, i).None?
  {
  }

  /** Two nodes added to a fresh monitor. */
  lemma TwoNodesReached(s: State, a: Text, f: Text, b: Text, g: Text) returns (t: State)
    requires Fresh(s) && a != b && f != [] && g != []
    ensures Reaches(s, t) && Inv(t) && t.media == s.media && t.trays == s.trays
    ensures t.nodes[0] == Node(true, a, f, false, 0) && t.nodes[1] == Node(true, b, g, false, 0)
    ensures forall n :: 2 <= n < NODES ==> !t.nodes[n].used
  {
    hide Linked, Placed, Named, Backed;
    InvInit(s);
    assert ApplyAll(s, []) == s;
    var add := Add(a, f, false, true);
    NoneNamed(s.nodes, a, 0);
    ReachStep(s, s, add);
    var s1 := Apply(s, add).0;
    assert s1 == s.(nodes := s.nodes[0 := Node(true, a, f, false, 0)]);
    NoneNamed(s1.nodes, b, 1);
    ReachStep(s, s1, Add(b, g, false, true));
    t := Apply(s1, Add(b, g, false, true)).0;
    assert FreeNode(s1.nodes, 0) == FreeNode(s1.nodes, 1) == Some(1);
    assert t == s1.(nodes := s1.nodes[1 := Node(true, b, g, false, 0)]);
  }

  /** An accepted operation on the drive a device name means. */
  lemma ReachDrive(s: State, t: State, i: nat, op: Op)
    requires Reaches(s, t) && Inv(t) && i < |t.media| && !op.Add? && !op.Del? && Device(t.media, DeviceOf(op), 0) == Some(i)
    requires op.RemoveMedium? || op.InsertMedium? || ((op.OpenTray? || op.CloseTray?) && op.cb.Accepts?)
    ensures var u := ApplyTo(t, i, op).0;
      Reaches(s, u) && Inv(u) && |u.media| == |t.media| && Device(u.media, DeviceOf(op), 0) == Some(i)
  {
    hide Linked, Placed, Named, Backed, Device, FindNode, Inv;
    ReachStep(s, t, op);
    DeviceByName(ApplyTo(t, i, op).0.media, t.media, DeviceOf(op), 0);
  }

  /** The state StrandedNodeStaysBusy starts from can be reached: on any removable drive of a fresh monitor. */
  lemma StrandingReached(s: State, i: nat, device: Text, a: Text, f: Text, b: Text, g: Text) returns (t: State)
    requires Fresh(s) && i < |s.media| && Removable(s.media[i]) && Device(s.media, device, 0) == Some(i)
    requires a != b && f != [] && g != []
    ensures Reaches(s, t) && Inv(t) && i < |t.media| && Removable(t.media[i]) && !t.trays[i].open && t.trays[i].node == 1
    ensures FindNode(t.nodes, b, 0) == Some(1) && t.nodes[1].attached == 0
  {
    hide Linked, Placed, Named, Backed, Device, Reaches, Inv, FindNode;
    var s0 := TwoNodesReached(s, a, f, b, g);
    InvSized(s0);
    ReachDrive(s, s0, i, OpenTray(device, Accepts(false)));
    var s1 := ApplyTo(s0, i, OpenTray(device, Accepts(false))).0;
    ReachDrive(s, s1, i, RemoveMedium(device));
    var s2 := ApplyTo(s1, i, RemoveMedium(device)).0;
    assert s2.trays[i] == Tray(true, [], 0) && s2.nodes == s0.nodes;
    FirstTwo(s2.nodes, a, b);
    ReachDrive(s, s2, i, InsertMedium(device, a));
    var s3 := ApplyTo(s2, i, InsertMedium(device, a)).0;
    assert s3.trays[i] == Tray(true, f, 1) && s3.nodes == s0.nodes[0 := s0.nodes[0].(attached := i + 1)];
    ReachDrive(s, s3, i, CloseTray(device, Accepts(false)));
    t := ApplyTo(s3, i, CloseTray(device, Accepts(false))).0;
    FirstTwo(t.nodes, a, b);
  }

  lemma InvSized(s: State)
    requires Inv(s)
    ensures Sized(s)
  {
  }

  lemma FirstTwo(ns: seq<Node>, a: Text, b: Text)
    requires |ns| == NODES && a != b && ns[0].used && ns[0].name == a && ns[1].used && ns[1].name == b
    ensures FindNode(ns, a, 0) == Some(0) && FindNode(ns, b, 0) == Some(1)
  {
    assert FindNode(ns, b, 1) == Some(1);
  }

  // ----------------------------------------------------------- the monitor, in place

  class Monitor {
    const media: array<Media>
    const trays: array<Tray>
    const nodes: array<Node>

    ghost predicate Valid() { trays.Length == media.Length && nodes.Length == NODES }

    function Abs(): State
      reads this, media, trays, nodes
    {
      State(media[..], trays[..], nodes[..])
    }

    method Look(name: Text) returns (i: Option<nat>)
      requires Valid()
      ensures i == Device(Abs().media, name, 0)
    {
      hide SameName;
      for k := 0 to media.Length
        invariant Device(media[..], name, 0) == Device(media[..], name, k)
      {
        if SameName(media[k].name, name) { return Some(k); }
      }
      i := None;
    }

    method LookNode(name: Text) returns (n: Option<nat>)
      requires Valid()
      ensures n == FindNode(Abs().nodes, name, 0)
    {
      for k := 0 to NODES
        invariant FindNode(nodes[..], name, 0) == FindNode(nodes[..], name, k)
      {
        if nodes[k].used && nodes[k].name == name { return Some(k); }
      }
      n := None;
    }

    method LookFree() returns (n: Option<nat>)
      requires Valid()
      ensures n == FreeNode(Abs().nodes, 0)
    {
      for k := 0 to NODES
        invariant FreeNode(nodes[..], 0) == FreeNode(nodes[..], k)
      {
        if !nodes[k].used { return Some(k); }
      }
      n := None;
    }

    method DetachNode(i: nat)
      requires Valid() && i < trays.Length
      modifies trays, nodes
      ensures Abs() == Detach(old(Abs()), i)
    {
      var n := trays[i].node;
      if 0 < n <= NODES { nodes[n - 1] := nodes[n - 1].(attached := 0); }
      trays[i] := trays[i].(node := 0);
    }

    method EmptyDrive(i: nat)
      requires Valid() && i < trays.Length
      modifies trays, nodes
      ensures Abs() == Empty(old(Abs()), i)
    {
      hide Detach;
      trays[i] := trays[i].(file := []);
      assert Abs().trays == old(Abs()).trays[i := trays[i]];
      DetachNode(i);
    }

    method Open(i: nat, cb: Callback) returns (r: Reply)
      requires Valid() && i < media.Length
      modifies media, trays
      ensures (Abs(), r) == DoOpen(old(Abs()), i, cb)
    {
      if !Removable(media[i]) { return Failed; }
      if trays[i].open { return Done; }
      r := Done;
      if media[i].file != [] {
        if cb.Refuses? { return Failed; }
        r := Result(cb);
        trays[i] := trays[i].(file := media[i].file);
        media[i] := media[i].(file := []);
      }
      trays[i] := trays[i].(open := true);
      assert trays[..] == old(trays[..])[i := trays[i]] && media[..] == old(media[..])[i := media[i]];
      assert old(media[i].file) == [] ==> media[..] == old(media[..]);
    }

    method Close(i: nat, cb: Callback) returns (r: Reply)
      requires Valid() && i < media.Length
      modifies media, trays
      ensures (Abs(), r) == DoClose(old(Abs()), i, cb)
    {
      if !Removable(media[i]) { return Failed; }
      if !trays[i].open { return Done; }
      r := Done;
      if trays[i].file != [] {
        if cb.Refuses? {
          if cb.dropped { media[i] := media[i].(file := []); }
          return Failed;
        }
        r := Result(cb);
        media[i] := media[i].(file := trays[i].file);
        trays[i] := trays[i].(file := []);
      }
      trays[i] := trays[i].(open := false);
      assert trays[..] == old(trays[..])[i := trays[i]] && media[..] == old(media[..])[i := media[i]];
      assert old(trays[i].file) == [] ==> media[..] == old(media[..]);
    }

    method Insert(i: nat, name: Text) returns (r: Reply)
      requires Valid() && i < media.Length
      modifies trays, nodes
      ensures (Abs(), r) == DoInsert(old(Abs()), i, name)
    {
      hide FindNode;
      var n := LookNode(name);
      if n.None? || !Removable(media[i]) || !trays[i].open { return Failed; }
      if nodes[n.value].attached != 0 || trays[i].file != [] { return Failed; }
      trays[i] := Tray(true, nodes[n.value].file, n.value + 1);
      nodes[n.value] := nodes[n.value].(attached := i + 1);
      r := Done;
    }

    method Change(i: nat, file: Text, cb: Callback) returns (r: Reply)
      requires Valid() && i < media.Length
      modifies media, trays, nodes
      ensures (Abs(), r) == DoChange(old(Abs()), i, file, cb)
    {
      hide Detach, DoClose;
      if !Removable(media[i]) { return Failed; }
      if trays[i].open {
        EmptyDrive(i);
        ghost var e := Abs();
        trays[i] := trays[i].(file := file);
        assert Abs() == SetTray(e, i, e.trays[i].(file := file));
        r := Close(i, cb);
        ghost var c := Abs();
        if r == Failed {
          trays[i] := trays[i].(file := []);
          assert Abs() == SetTray(c, i, c.trays[i].(file := []));
        }
        return;
      }
      if cb.Refuses? {
        if cb.dropped { media[i] := media[i].(file := []); }
        return Failed;
      }
      DetachNode(i);
      media[i] := media[i].(file := file);
      r := Result(cb);
    }

    method AddNode(name: Text, file: Text, readOnly: bool, opens: bool) returns (r: Reply)
      requires Valid()
      modifies nodes
      ensures (Abs(), r) == DoAdd(old(Abs()), name, file, readOnly, opens)
    {
      hide FindNode, FreeNode;
      var known := LookNode(name);
      if known.Some? || !opens || file == [] { return Failed; }
      var n := LookFree();
      if n.None? { return Failed; }
      nodes[n.value] := Node(true, name, file, readOnly, 0);
      r := Done;
    }

    method DeleteNode(name: Text) returns (r: Reply)
      requires Valid()
      modifies nodes
      ensures (Abs(), r) == DoDel(old(Abs()), name)
    {
      hide FindNode;
      var n := LookNode(name);
      if n.None? || nodes[n.value].attached != 0 { return Failed; }
      nodes[n.value] := nodes[n.value].(used := false);
      r := Done;
    }

    /** The console changed or ejected the medium itself. */
    method MediaChanged(i: nat, ejected: bool)
      requires Valid() && i < trays.Length
      modifies trays, nodes
      ensures Abs() == (var e := Empty(old(Abs()), i); SetTray(e, i, e.trays[i].(open := ejected)))
    {
      hide Detach;
      EmptyDrive(i);
      ghost var e := Abs();
      trays[i] := trays[i].(open := ejected);
      assert Abs() == SetTray(e, i, e.trays[i].(open := ejected));
    }

    method ConsoleChange(i: nat, file: Text, cb: Callback) returns (r: Reply)
      requires Valid() && i < media.Length
      modifies media, trays, nodes
      ensures (Abs(), r) == DoTextChange(old(Abs()), i, file, cb)
    {
      hide Empty;
      if file == [] || !media[i].canChange { return Failed; }
      ghost var s := Abs();
      if cb.Refuses? {
        if cb.dropped { media[i] := media[i].(file := []); }
        return Failed;
      }
      media[i] := media[i].(file := file);
      assert Abs() == SetFile(s, i, file);
      MediaChanged(i, false);
      r := Result(cb);
    }

    method ConsoleEject(i: nat, cb: Callback) returns (r: Reply)
      requires Valid() && i < media.Length
      modifies media, trays, nodes
      ensures (Abs(), r) == DoTextEject(old(Abs()), i, cb)
    {
      hide Empty;
      if !media[i].canEject || cb.Refuses? { return Failed; }
      ghost var s := Abs();
      media[i] := media[i].(file := []);
      assert Abs() == SetFile(s, i, []);
      MediaChanged(i, true);
      r := Result(cb);
    }

    method Remove(i: nat) returns (r: Reply)
      requires Valid() && i < media.Length
      modifies trays, nodes
      ensures (Abs(), r) ==
        if Removable(old(Abs()).media[i]) && old(Abs()).trays[i].open then (Empty(old(Abs()), i), Done) else (old(Abs()), Failed)
    {
      hide Empty;
      if !Removable(media[i]) || !trays[i].open { return Failed; }
      EmptyDrive(i);
      r := Done;
    }

    /** Any operation; the replies and the new state are exactly Apply's. */
    method Run(op: Op) returns (r: Reply)
      requires Valid()
      modifies media, trays, nodes
      ensures (Abs(), r) == Apply(old(Abs()), op)
    {
      hide DoOpen, DoClose, DoInsert, DoChange, DoAdd, DoDel, DoTextChange, DoTextEject, Empty, Device;
      if op.Add? {
        r := AddNode(op.name, op.file, op.readOnly, op.opens);
      } else if op.Del? {
        r := DeleteNode(op.name);
      } else {
        var d := Look(op.device);
        if d.None? { return NotFound; }
        var i := d.value;
        match op {
          case OpenTray(_, cb) => r := Open(i, cb);
          case CloseTray(_, cb) => r := Close(i, cb);
          case RemoveMedium(_) => r := Remove(i);
          case InsertMedium(_, name) => r := Insert(i, name);
          case ChangeMedium(_, file, cb) => r := Change(i, file, cb);
          case TextChange(_, file, cb) => r := ConsoleChange(i, file, cb);
          case TextEject(_, cb) => r := ConsoleEject(i, cb);
        }
      }
    }
  }

  // ------------------------------------------------------------------ names and replies

  /** Two characters that differ at most in the case of a letter. */
  predicate SameLetter(x: char, y: char) {
    x == y || ('A' <= x <= 'Z' && y as int == x as int + 32) || ('A' <= y <= 'Z' && x as int == y as int + 32)
  }

  /** Devices are found by name without regard to case. */
  lemma CaseIgnored(a: Text, b: Text)
    ensures SameName(a, b) <==> |a| == |b| && forall i :: 0 <= i < |a| ==> SameLetter(a[i], b[i])
  {
    hide Lower, SameLetter;
    forall x: char, y: char ensures Lower(x) == Lower(y) <==> SameLetter(x, y) { SameLower(x, y); }
  }

  lemma SameLower(x: char, y: char)
    ensures Lower(x) == Lower(y) <==> SameLetter(x, y)
  {
  }

  /** Only a drive that can both eject and change opens its tray, and only a callback that asks for it resets. */
  lemma OpensOnlyRemovable(s: State, i: nat, cb: Callback)
    requires Sized(s) && i < |s.media|
    ensures !s.media[i].canEject || !s.media[i].canChange ==> DoOpen(s, i, cb) == (s, Failed)
    ensures s.media[i].canEject && s.media[i].canChange && !s.trays[i].open && s.media[i].file != [] ==>
      DoOpen(s, i, cb).1 == match cb case Accepts(true) => DoneReset case Accepts(false) => Done case Refuses(_) => Failed
  {
  }

  /** There are sixteen nodes. */
  lemma SixteenNodes(s: State)
    requires Sized(s)
    ensures FreeNode(s.nodes, 0).None? <==> forall j :: 0 <= j < 16 ==> s.nodes[j].used
  {
    FreeFrom(s.nodes, 0);
  }

  lemma {:induction false} FreeFrom(ns: seq<Node>, i: nat)
    requires i <= |ns|
    ensures FreeNode(ns, i).None? <==> forall j :: i <= j < |ns| ==> ns[j].used
    decreases |ns| - i
  {
    if i < |ns| { FreeFrom(ns, i + 1); }
  }
}
