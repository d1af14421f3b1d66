/** The self-test's sparse memory (src/ia64_selftest.c): 4096 pages in an open-addressed table,
    against a plain map of pages. */
module SparseMemory {
  import opened Runs
  import opened Arithmetic

  const PAGE: nat := 4096
  const SLOTS: nat := 4096
  const SPACE: nat := 0x1_0000_0000_0000_0000

  // ------------------------------------------------------------------ the plain map

  /** Touched pages by page number. */
  type Pages = map<nat, seq<nat>>

  function ByteAt(m: Pages, a: nat): nat {
    if a / PAGE in m && a % PAGE < |m[a / PAGE]| then m[a / PAGE][a % PAGE] else 0xFF
  }

  function Zeros(): (z: seq<nat>)
    ensures |z| == PAGE
  {
    seq(PAGE, _ => 0)
  }

  const NONE: Pages := map[]

  predicate Sized(m: Pages) { forall p :: p in m ==> |m[p]| == PAGE }

  /** The page to write to, fresh and zero if untouched, while there is room. */
  function Touched(m: Pages, p: nat): Pages {
    if p in m || |m| >= SLOTS then m else m[p := Zeros()]
  }

  function SetByte(page: seq<nat>, i: nat, b: nat): (r: seq<nat>)
    requires i < |page|
    ensures |r| == |page|
  {
    page[..i] + [b] + page[i + 1..]
  }

  function PutByte(m: Pages, a: nat, b: nat): (r: Pages)
    requires Sized(m)
    ensures Sized(r)
  {
    var t := Touched(m, a / PAGE);
    if a / PAGE in t then t[a / PAGE := SetByte(t[a / PAGE], a % PAGE, b)] else t
  }

  function Wrap(a: nat): nat { a % SPACE }

  /** Little-endian, byte by byte, wrapping at the top of the address space. */
  function Get(m: Pages, a: nat, size: nat): nat
    decreases size
  {
    if size == 0 then 0 else ByteAt(m, Wrap(a)) + 256 * Get(m, a + 1, size - 1)
  }

  function Put(m: Pages, a: nat, v: nat, size: nat): (r: Pages)
    requires Sized(m)
    ensures Sized(r)
    decreases size
  {
    if size == 0 then m else Put(PutByte(m, Wrap(a), v % 256), a + 1, v / 256, size - 1)
  }

  lemma PutByteEffect(m: Pages, a: nat, b: nat, c: nat)
    requires Sized(m) && (a / PAGE in m || |m| < SLOTS)
    ensures ByteAt(PutByte(m, a, b), c) ==
      if c == a then b else if c / PAGE == a / PAGE && c / PAGE !in m then 0 else ByteAt(m, c)
  {
  }

  /** The last byte a run of byte writes leaves at c, if it writes there at all. */
  function LastByte(ws: seq<(nat, nat)>, c: nat): Option<nat>
    decreases |ws|
  {
    if ws == [] then None
    else
      var later := LastByte(ws[1..], c);
      if later.Some? then later else if ws[0].0 == c then Some(ws[0].1) else None
  }

  function PutAll(m: Pages, ws: seq<(nat, nat)>): (r: Pages)
    requires Sized(m)
    ensures Sized(r)
    decreases |ws|
  {
    if ws == [] then m else PutAll(PutByte(m, ws[0].0, ws[0].1), ws[1..])
  }

  predicate Touches(ws: seq<(nat, nat)>, p: nat) { exists i :: 0 <= i < |ws| && ws[i].0 / PAGE == p }

  /** The pages there are once a run has touched its own. */
  function PagesAfter(ps: set<nat>, ws: seq<(nat, nat)>): set<nat>
    decreases |ws|
  {
    if ws == [] then ps else PagesAfter(ps + {ws[0].0 / PAGE}, ws[1..])
  }

  lemma {:induction false} PagesGrow(ps: set<nat>, ws: seq<(nat, nat)>)
    ensures ps <= PagesAfter(ps, ws)
    decreases |ws|
  {
    if ws != [] { PagesGrow(ps + {ws[0].0 / PAGE}, ws[1..]); }
  }

  /** When every page touched fits the table: the last byte written, else zero in a page the run touched
      first, else what was there before (0xFF in untouched pages). */
  lemma {:induction false} LastByteWins(m: Pages, ws: seq<(nat, nat)>, c: nat)
    requires Sized(m) && |PagesAfter(m.Keys, ws)| <= SLOTS
    ensures ByteAt(PutAll(m, ws), c) ==
      match LastByte(ws, c)
      case Some(b) => b
      case None => if c / PAGE !in m && Touches(ws, c / PAGE) then 0 else ByteAt(m, c)
    ensures PutAll(m, ws).Keys == PagesAfter(m.Keys, ws)
    decreases |ws|
  {
    hide PutByte, ByteAt, Touches;
    NoTouches(c / PAGE);
    if ws != [] {
      var p, m' := ws[0].0 / PAGE, PutByte(m, ws[0].0, ws[0].1);
      PagesGrow(m.Keys + {p}, ws[1..]);
      RoomForOne(m.Keys, p, PagesAfter(m.Keys + {p}, ws[1..]));
      PutGrows(m, ws[0].0, ws[0].1);
      LastByteWins(m', ws[1..], c);
      PutByteEffect(m, ws[0].0, ws[0].1, c);
      FirstTouch(ws, c / PAGE);
    }
  }

  lemma NoTouches(p: nat)
    ensures !Touches([], p)
  {
  }

  /** Room for the final pages is room for the first of them. */
  lemma RoomForOne(ps: set<nat>, p: nat, all: set<nat>)
    requires ps + {p} <= all && |all| <= SLOTS
    ensures p in ps || |ps| < SLOTS
  {
    SubsetSize(ps + {p}, all);
  }

  lemma FirstTouch(ws: seq<(nat, nat)>, p: nat)
    requires ws != []
    ensures Touches(ws, p) <==> ws[0].0 / PAGE == p || Touches(ws[1..], p)
  {
    if Touches(ws[1..], p) {
      var i :| 0 <= i < |ws| - 1 && ws[1..][i].0 / PAGE == p;
      assert ws[i + 1].0 / PAGE == p;
    }
    if Touches(ws, p) && ws[0].0 / PAGE != p {
      var i :| 0 <= i < |ws| && ws[i].0 / PAGE == p;
      assert ws[1..][i - 1].0 / PAGE == p;
    }
  }

  lemma PutGrows(m: Pages, a: nat, b: nat)
    requires Sized(m)
    ensures |m| < SLOTS || a / PAGE in m ==> PutByte(m, a, b).Keys == m.Keys + {a / PAGE}
  {
  }

  // ------------------------------------------------------- accesses of any size

  /** The bytes a write of any size and alignment puts, in order. */
  function BytesOf(a: nat, v: nat, size: nat): seq<(nat, nat)>
    decreases size
  {
    if size == 0 then [] else [(Wrap(a), v % 256)] + BytesOf(a + 1, v / 256, size - 1)
  }

  lemma {:induction false} PutIsBytes(m: Pages, a: nat, v: nat, size: nat)
    requires Sized(m)
    ensures Put(m, a, v, size) == PutAll(m, BytesOf(a, v, size))
    decreases size
  {
    hide PutByte;
    if size > 0 {
      assert ([(Wrap(a), v % 256)] + BytesOf(a + 1, v / 256, size - 1))[1..] == BytesOf(a + 1, v / 256, size - 1);
      PutIsBytes(PutByte(m, Wrap(a), v % 256), a + 1, v / 256, size - 1);
    }
  }

  lemma {:induction false} PutAllAppend(m: Pages, a: seq<(nat, nat)>, b: seq<(nat, nat)>)
    requires Sized(m)
    ensures PutAll(m, a + b) == PutAll(PutAll(m, a), b)
    decreases |a|
  {
    hide PutByte;
    if a == [] {
      assert a + b == b;
    } else {
      assert (a + b)[1..] == a[1..] + b;
      PutAllAppend(PutByte(m, a[0].0, a[0].1), a[1..], b);
    }
  }

  datatype Access = ReadAt(a: nat, size: nat) | WriteAt(a: nat, v: nat, size: nat)

  /** All bytes the writes of a run put, in order. */
  function BytesPut(ops: seq<Access>): seq<(nat, nat)>
    decreases |ops|
  {
    if ops == [] then []
    else (if ops[0].WriteAt? then BytesOf(ops[0].a, ops[0].v, ops[0].size) else []) + BytesPut(ops[1..])
  }

  /** A byte of memory after some bytes were put into an empty one. */
  function Latest(ws: seq<(nat, nat)>, c: nat): nat {
    match LastByte(ws, c)
    case Some(b) => b
    case None => if Touches(ws, c / PAGE) then 0 else 0xFF
  }

  /** A value made of such bytes, little-endian and wrapping. */
  function LatestValue(ws: seq<(nat, nat)>, a: nat, size: nat): nat
    decreases size
  {
    if size == 0 then 0 else Latest(ws, Wrap(a)) + 256 * LatestValue(ws, a + 1, size - 1)
  }

  /** What a run's reads answer, after earlier puts (writes answer 0). */
  function Answers(before: seq<(nat, nat)>, ops: seq<Access>): seq<nat>
    decreases |ops|
  {
    if ops == [] then []
    else if ops[0].ReadAt? then [LatestValue(before, ops[0].a, ops[0].size)] + Answers(before, ops[1..])
    else [0] + Answers(before + BytesOf(ops[0].a, ops[0].v, ops[0].size), ops[1..])
  }

  /** From an empty memory, a value read is made of the last bytes written. */
  lemma {:induction false} ReadsLatest(ws: seq<(nat, nat)>, a: nat, size: nat)
    requires |PagesAfter({}, ws)| <= SLOTS
    ensures Get(PutAll(NONE, ws), a, size) == LatestValue(ws, a, size)
    decreases size
  {
    hide PutAll, PagesAfter, LastByte, Touches;
    if size > 0 {
      assert NONE.Keys == {};
      LastByteWins(NONE, ws, Wrap(a));
      ReadsLatest(ws, a + 1, size - 1);
    }
  }

  lemma {:induction false} PagesAppend(ps: set<nat>, a: seq<(nat, nat)>, b: seq<(nat, nat)>)
    ensures PagesAfter(ps, a + b) == PagesAfter(PagesAfter(ps, a), b)
    ensures PagesAfter(ps, a) <= PagesAfter(ps, a + b)
    decreases |a|
  {
    if a == [] {
      assert a + b == b;
      PagesGrow(ps, b);
    } else {
      assert (a + b)[1..] == a[1..] + b;
      PagesAppend(ps + {a[0].0 / PAGE}, a[1..], b);
    }
  }

  // ---------------------------------------------------------------------- the table

  /** The first slot to try for a page. */
  function Hash(p: nat): (h: nat)
    ensures h < SLOTS
  {
    p * 0x9E3779B97F4A7C15 % SPACE / 0x10_0000_0000_0000 % SLOTS
  }

  function Slot(p: nat, d: nat): (i: nat)
    ensures i < SLOTS
  {
    (Hash(p) + d) % SLOTS
  }

  /** How far slot i is from the page's first. */
  function Distance(p: nat, i: nat): (d: nat)
    ensures d < SLOTS
  {
    (i - Hash(p)) % SLOTS
  }

  lemma SlotDistance(p: nat, i: nat, d: nat)
    requires i < SLOTS && d < SLOTS
    ensures Slot(p, Distance(p, i)) == i && Distance(p, Slot(p, d)) == d
  {
    hide Hash;
  }

  /** The first n slots tried for page p are taken. */
  ghost predicate PathFull(tags: seq<nat>, p: nat, n: nat)
    requires |tags| == SLOTS
  {
    forall d :: 0 <= d < n ==> tags[Slot(p, d)] != 0
  }

  /** A probe for a tag arrives where it sits before any empty slot. */
  ghost predicate Reachable(tags: seq<nat>)
    requires |tags| == SLOTS
  {
    forall i :: 0 <= i < SLOTS && tags[i] != 0 ==> PathFull(tags, tags[i] - 1, Distance(tags[i] - 1, i))
  }

  /** No tag sits twice. */
  ghost predicate Distinct(tags: seq<nat>) {
    forall i, j :: 0 <= i < j < |tags| && tags[i] != 0 ==> tags[i] != tags[j]
  }

  ghost predicate Probing(tags: seq<nat>) { |tags| == SLOTS && Reachable(tags) && Distinct(tags) }

  /** The table holds exactly the map's pages. */
  ghost predicate Represents(tags: seq<nat>, data: seq<seq<nat>>, m: Pages) {
    && |tags| == |data| == SLOTS
    && (forall i :: 0 <= i < SLOTS && tags[i] != 0 ==> tags[i] - 1 in m && m[tags[i] - 1] == data[i])
    && (forall p :: p in m ==> HasTag(tags, p))
  }

  ghost predicate HasTag(tags: seq<nat>, p: nat) { exists i :: 0 <= i < |tags| && tags[i] == p + 1 }

  /** The first d slots tried for p hold other tags. */
  ghost predicate Passed(tags: seq<nat>, p: nat, d: nat)
    requires |tags| == SLOTS
  {
    forall e :: 0 <= e < d ==> tags[Slot(p, e)] != 0 && tags[Slot(p, e)] != p + 1
  }

  /** An empty slot met first proves the page is not there. */
  lemma EmptyMeansAbsent(tags: seq<nat>, data: seq<seq<nat>>, m: Pages, p: nat, d: nat)
    requires Probing(tags) && Represents(tags, data, m) && d < SLOTS && tags[Slot(p, d)] == 0
    requires Passed(tags, p, d)
    ensures p !in m && forall i :: 0 <= i < SLOTS ==> tags[i] != p + 1
  {
    hide Hash, Slot, Distance, Distinct, Represents;
    forall i | 0 <= i < SLOTS ensures tags[i] != p + 1 {
      SlotDistance(p, i, d);
      TagPath(tags, p, i);
    }
    NoTagNoPage(tags, data, m, p);
  }

  lemma TagPath(tags: seq<nat>, p: nat, i: nat)
    requires |tags| == SLOTS && Reachable(tags) && i < SLOTS
    ensures tags[i] == p + 1 ==> PathFull(tags, p, Distance(p, i))
  {
    hide Slot, Distance;
  }

  lemma NoTagNoPage(tags: seq<nat>, data: seq<seq<nat>>, m: Pages, p: nat)
    requires Represents(tags, data, m) && forall i :: 0 <= i < SLOTS ==> tags[i] != p + 1
    ensures p !in m
  {
  }

  /** All slots seen: the page is not there, and there is no room. */
  lemma FullMeansAbsent(tags: seq<nat>, data: seq<seq<nat>>, m: Pages, p: nat)
    requires Probing(tags) && Represents(tags, data, m) && Passed(tags, p, SLOTS)
    ensures p !in m && |m| == SLOTS
  {
    hide Hash, Slot, Distance, Distinct, Represents, Reachable;
    forall i | 0 <= i < SLOTS ensures tags[i] != 0 && tags[i] != p + 1 { SlotDistance(p, i, 0); }
    NoTagNoPage(tags, data, m, p);
    SizeIsOccupied(tags, data, m);
    AllOccupied(tags, SLOTS);
  }

  lemma TaggedIffPage(tags: seq<nat>, data: seq<seq<nat>>, m: Pages, q: nat)
    requires Represents(tags, data, m)
    ensures q in m <==> HasTag(tags, q)
  {
    if HasTag(tags, q) {
      var i :| 0 <= i < |tags| && tags[i] == q + 1;
      assert tags[i] - 1 in m;
    }
  }

  lemma SizeIsOccupied(tags: seq<nat>, data: seq<seq<nat>>, m: Pages)
    requires Probing(tags) && Represents(tags, data, m)
    ensures |m| == Occupied(tags, SLOTS)
  {
    hide Reachable, Occupied, OccupiedPages, Represents, HasTag;
    OccupiedCount(tags, SLOTS);
    assert m.Keys == OccupiedPages(tags, SLOTS) by {
      forall q: nat ensures q in m <==> q in OccupiedPages(tags, SLOTS) {
        OccupiedMember(tags, SLOTS, q);
        assert tags[..SLOTS] == tags;
        TaggedIffPage(tags, data, m, q);
      }
    }
  }

  function OccupiedPages(tags: seq<nat>, n: nat): set<nat>
    requires n <= |tags|
  {
    if n == 0 then {} else OccupiedPages(tags, n - 1) + (if tags[n - 1] != 0 then {tags[n - 1] - 1} else {})
  }

  function Occupied(tags: seq<nat>, n: nat): nat
    requires n <= |tags|
  {
    if n == 0 then 0 else Occupied(tags, n - 1) + (if tags[n - 1] != 0 then 1 else 0)
  }

  lemma {:induction false} OccupiedMember(tags: seq<nat>, n: nat, q: nat)
    requires n <= |tags|
    ensures q in OccupiedPages(tags, n) <==> HasTag(tags[..n], q)
    decreases n
  {
    if n > 0 {
      OccupiedMember(tags, n - 1, q);
      var a, b := tags[..n - 1], tags[..n];
      assert b == a + [tags[n - 1]];
      if HasTag(a, q) { var i :| 0 <= i < |a| && a[i] == q + 1; assert b[i] == q + 1; }
      if tags[n - 1] == q + 1 { assert b[n - 1] == q + 1; }
    }
  }

  lemma {:induction false} OccupiedCount(tags: seq<nat>, n: nat)
    requires Distinct(tags) && n <= |tags|
    ensures |OccupiedPages(tags, n)| == Occupied(tags, n) <= n
    decreases n
  {
    if n > 0 {
      OccupiedCount(tags, n - 1);
      if tags[n - 1] != 0 { OccupiedMember(tags, n - 1, tags[n - 1] - 1); }
      assert forall i :: 0 <= i < n - 1 ==> tags[..n - 1][i] == tags[i];
    }
  }

  lemma {:induction false} AllOccupied(tags: seq<nat>, n: nat)
    requires n <= |tags| && forall i :: 0 <= i < n ==> tags[i] != 0
    ensures Occupied(tags, n) == n
    decreases n
  {
    if n > 0 { AllOccupied(tags, n - 1); }
  }

  /** An empty slot: there is room. */
  lemma RoomCount(tags: seq<nat>, data: seq<seq<nat>>, m: Pages, i: nat)
    requires Probing(tags) && Represents(tags, data, m) && i < SLOTS && tags[i] == 0
    ensures |m| < SLOTS
  {
    hide Probing, Represents, Occupied;
    ProbingSize(tags);
    SizeIsOccupied(tags, data, m);
    NotAll(tags, SLOTS, i);
  }

  lemma ProbingSize(tags: seq<nat>)
    requires Probing(tags)
    ensures |tags| == SLOTS
  {
  }

  lemma {:induction false} NotAll(tags: seq<nat>, n: nat, i: nat)
    requires i < n <= |tags| && tags[i] == 0
    ensures Occupied(tags, n) < n
    decreases n
  {
    if i < n - 1 { NotAll(tags, n - 1, i); } else { AtMost(tags, n - 1); }
  }

  lemma {:induction false} AtMost(tags: seq<nat>, n: nat)
    requires n <= |tags|
    ensures Occupied(tags, n) <= n
    decreases n
  {
    if n > 0 { AtMost(tags, n - 1); }
  }

  function Put1(tags: seq<nat>, i: nat, tag: nat): (r: seq<nat>)
    requires i < |tags|
  {
    tags[i := tag]
  }

  /** Filling the empty slot a probe for p arrives at keeps the table sound. */
  lemma InsertKeeps(tags: seq<nat>, p: nat, d: nat)
    requires Probing(tags) && d < SLOTS && tags[Slot(p, d)] == 0 && Passed(tags, p, d)
    requires forall i :: 0 <= i < SLOTS ==> tags[i] != p + 1
    ensures Probing(Put1(tags, Slot(p, d), p + 1))
  {
    hide Hash, Slot, Distance;
    var tags' := Put1(tags, Slot(p, d), p + 1);
    SlotDistance(p, 0, d);
    forall i | 0 <= i < SLOTS && tags'[i] != 0 ensures PathFull(tags', tags'[i] - 1, Distance(tags'[i] - 1, i)) {
      if i != Slot(p, d) { assert PathFull(tags, tags[i] - 1, Distance(tags[i] - 1, i)); }
    }
  }

  lemma InsertRepresents(tags: seq<nat>, data: seq<seq<nat>>, m: Pages, p: nat, i: nat)
    requires Represents(tags, data, m) && i < SLOTS && tags[i] == 0 && p !in m
    ensures Represents(Put1(tags, i, p + 1), data[i := Zeros()], m[p := Zeros()])
  {
    hide HasTag;
    var tags', data', m' := Put1(tags, i, p + 1), data[i := Zeros()], m[p := Zeros()];
    forall k | 0 <= k < SLOTS && tags'[k] != 0 ensures tags'[k] - 1 in m' && m'[tags'[k] - 1] == data'[k] {
      if k != i { TagMeansPage(tags, data, m, k); }
    }
    forall q | q in m' ensures HasTag(tags', q) { TagsAfter(tags, i, p + 1, q); }
  }

  lemma TagsAfter(tags: seq<nat>, i: nat, tag: nat, q: nat)
    requires i < |tags| && tags[i] == 0
    ensures HasTag(tags, q) || tag == q + 1 ==> HasTag(Put1(tags, i, tag), q)
  {
    var tags' := Put1(tags, i, tag);
    if tag == q + 1 {
      assert tags'[i] == q + 1;
    } else if HasTag(tags, q) {
      var j :| 0 <= j < |tags| && tags[j] == q + 1;
      assert tags'[j] == q + 1;
    }
  }

  class Bus {
    const tags: array<nat>
    const data: array<seq<nat>>
    ghost var pages: Pages

    ghost predicate Valid()
      reads this, tags, data
    {
      tags.Length == SLOTS && data.Length == SLOTS && Probing(tags[..]) && Represents(tags[..], data[..], pages) && Sized(pages)
    }

    constructor ()
      ensures Valid() && pages == map[] && fresh(tags) && fresh(data)
    {
      tags := new nat[SLOTS](_ => 0);
      data := new seq<nat>[SLOTS](_ => []);
      pages := map[];
    }

    /** The page's slot, made if asked for and there is room. */
    method Page(addr: nat, create: bool) returns (slot: Option<nat>)
      requires Valid()
      modifies this, tags, data
      ensures Valid() && pages == if create then Touched(old(pages), addr / PAGE) else old(pages)
      ensures !create ==> tags[..] == old(tags[..]) && data[..] == old(data[..])
      ensures slot.Some? <==> addr / PAGE in pages
      ensures slot.Some? ==> slot.value < SLOTS && tags[slot.value] == addr / PAGE + 1
    {
      hide Hash, Slot, Distance, Zeros, Probing, Represents, Sized, Passed;
      var pn := addr / PAGE;
      NothingPassed(tags[..], pn);
      for probe := 0 to SLOTS
        invariant Valid() && pages == old(pages) && tags[..] == old(tags[..]) && data[..] == old(data[..])
        invariant Passed(tags[..], pn, probe)
      {
        var i := Slot(pn, probe);
        if tags[i] == pn + 1 {
          TagMeansPage(tags[..], data[..], pages, i);
          return Some(i);
        }
        if tags[i] == 0 {
          EmptyMeansAbsent(tags[..], data[..], pages, pn, probe);
          if !create { return None; }
          RoomCount(tags[..], data[..], pages, i);
          Insert(pn, probe);
          return Some(i);
        }
        PassedMore(tags[..], pn, probe);
      }
      FullMeansAbsent(tags[..], data[..], pages, pn);
      return None;
    }

    method Insert(pn: nat, probe: nat)
      requires Valid() && probe < SLOTS && tags[Slot(pn, probe)] == 0 && pn !in pages
      requires Passed(tags[..], pn, probe) && forall i :: 0 <= i < SLOTS ==> tags[..][i] != pn + 1
      modifies this, tags, data
      ensures Valid() && pages == old(pages)[pn := Zeros()] && tags[Slot(pn, probe)] == pn + 1
    {
      hide Hash, Slot, Distance, Probing, Represents, Passed;
      var i := Slot(pn, probe);
      InsertKeeps(tags[..], pn, probe);
      InsertRepresents(tags[..], data[..], pages, pn, i);
      var tag: nat := pn + 1;
      ghost var t, d := Put1(tags[..], i, tag), data[..][i := Zeros()];
      data[i] := Zeros();
      tags[i] := tag;
      pages := pages[pn := Zeros()];
      assert tags[..] == t && data[..] == d;
    }

    method Read(addr: nat, size: nat) returns (v: nat)
      requires Valid()
      modifies this, tags, data
      ensures Valid() && pages == old(pages) && tags[..] == old(tags[..]) && data[..] == old(data[..])
      ensures v == Get(pages, addr, size)
    {
      hide Get, Probing, Represents, Times, Sized;
      v := 0;
      var scale: nat := 1;
      Once(Get(pages, addr, size));
      for i := 0 to size
        invariant Valid() && pages == old(pages) && tags[..] == old(tags[..]) && data[..] == old(data[..])
        invariant v + Times(scale, Get(pages, addr + i, size - i)) == Get(pages, addr, size)
      {
        var a := Wrap(addr + i);
        var slot := Page(a, false);
        var byte := ByteIn(slot, a);
        GetFrom(pages, addr + i, size - i);
        Spread(scale, byte, Get(pages, addr + i + 1, size - i - 1));
        v, scale := v + Times(scale, byte), scale * 256;
      }
      GetFrom(pages, addr + size, 0);
      Once(scale);
    }

    method ByteIn(slot: Option<nat>, a: nat) returns (byte: nat)
      requires Valid() && (slot.Some? <==> a / PAGE in pages)
      requires slot.Some? ==> slot.value < SLOTS && tags[slot.value] == a / PAGE + 1
      ensures byte == ByteAt(pages, a)
    {
      hide Probing, HasTag;
      if slot.Some? { TagMeansPage(tags[..], data[..], pages, slot.value); }
      byte := if slot.Some? then data[slot.value][a % PAGE] else 0xFF;
    }

    method Write(addr: nat, v: nat, size: nat)
      requires Valid()
      modifies this, tags, data
      ensures Valid() && pages == Put(old(pages), addr, v, size)
    {
      hide Put, PutByte, ByteAt, Probing, Represents;
      var i, left := 0, v;
      PutFrom(pages, addr, left, size);
      while i < size
        invariant 0 <= i <= size && Valid() && left >= 0
        invariant Put(pages, addr + i, left, size - i) == Put(old(pages), addr, v, size)
      {
        PutFrom(pages, addr + i, left, size - i);
        WriteByte(Wrap(addr + i), left % 256);
        i, left := i + 1, left / 256;
      }
      PutFrom(pages, addr + i, left, 0);
    }

    /** A run of reads and writes of any sizes and alignments, from an empty memory, while the pages it
        writes to fit the table: every read is made of the last bytes written, zeros elsewhere in touched
        pages, and 0xFF in untouched ones. */
    method Serve(ops: seq<Access>) returns (answers: seq<nat>)
      requires Valid() && pages == map[] && |PagesAfter({}, BytesPut(ops))| <= SLOTS
      modifies this, tags, data
      ensures Valid() && pages == PutAll(NONE, BytesPut(ops)) && answers == Answers([], ops)
    {
      hide PutAll, Answers, BytesPut, PagesAfter, LatestValue, Probing, Represents, Sized;
      answers := [];
      ghost var ws: seq<(nat, nat)> := [];
      RunStarts(ops);
      for k := 0 to |ops|
        invariant Valid() && pages == PutAll(NONE, ws)
        invariant ws + BytesPut(ops[k..]) == BytesPut(ops)
        invariant answers + Answers(ws, ops[k..]) == Answers([], ops)
      {
        RunStep(ws, ops, k);
        PagesAppend({}, ws, BytesPut(ops[k..]));
        SubsetSize(PagesAfter({}, ws), PagesAfter({}, BytesPut(ops)));
        var answer := 0;
        match ops[k] {
          case ReadAt(a, size) =>
            answer := Read(a, size);
            ReadsLatest(ws, a, size);
          case WriteAt(a, v, size) =>
            PutIsBytes(pages, a, v, size);
            PutAllAppend(NONE, ws, BytesOf(a, v, size));
            Write(a, v, size);
            ws := ws + BytesOf(a, v, size);
        }
        answers := answers + [answer];
      }
      RunEnds(ws, ops);
    }

    method WriteByte(a: nat, b: nat)
      requires Valid()
      modifies this, tags, data
      ensures Valid() && pages == PutByte(old(pages), a, b)
    {
      hide Hash, Slot, Distance, Zeros, Probing, Represents;
      var slot := Page(a, true);
      if slot.Some? {
        var i := slot.value;
        TagMeansPage(tags[..], data[..], pages, i);
        var page := SetByte(data[i], a % PAGE, b);
        StoreRepresents(tags[..], data[..], pages, i, page);
        ghost var d := data[..][i := page];
        data[i] := page;
        pages := pages[a / PAGE := page];
        assert data[..] == d;
      }
    }
  }

  lemma RunStarts(ops: seq<Access>)
    ensures ops[0..] == ops && PutAll(NONE, []) == map[] && [] + BytesPut(ops) == BytesPut(ops)
  {
  }

  lemma RunEnds(ws: seq<(nat, nat)>, ops: seq<Access>)
    ensures BytesPut(ops[|ops|..]) == [] && Answers(ws, ops[|ops|..]) == [] && ws + [] == ws
  {
  }

  lemma RunStep(ws: seq<(nat, nat)>, ops: seq<Access>, k: nat)
    requires k < |ops|
    ensures ops[k].ReadAt? ==>
      && BytesPut(ops[k..]) == BytesPut(ops[k + 1..])
      && Answers(ws, ops[k..]) == [LatestValue(ws, ops[k].a, ops[k].size)] + Answers(ws, ops[k + 1..])
    ensures ops[k].WriteAt? ==>
      var b := BytesOf(ops[k].a, ops[k].v, ops[k].size);
      && ws + BytesPut(ops[k..]) == ws + b + BytesPut(ops[k + 1..])
      && Answers(ws, ops[k..]) == [0] + Answers(ws + b, ops[k + 1..])
  {
    hide LatestValue, BytesOf;
    assert ops[k..][1..] == ops[k + 1..];
  }

  lemma NothingPassed(tags: seq<nat>, p: nat)
    ensures |tags| == SLOTS ==> Passed(tags, p, 0)
  {
  }

  lemma PassedMore(tags: seq<nat>, p: nat, d: nat)
    requires |tags| == SLOTS && Passed(tags, p, d) && tags[Slot(p, d)] != 0 && tags[Slot(p, d)] != p + 1
    ensures Passed(tags, p, d + 1)
  {
    hide Slot;
  }

  lemma TagMeansPage(tags: seq<nat>, data: seq<seq<nat>>, m: Pages, i: nat)
    requires Represents(tags, data, m) && i < SLOTS && tags[i] != 0
    ensures tags[i] - 1 in m && m[tags[i] - 1] == data[i]
  {
  }

  /** Storing a page's bytes changes that page only. */
  lemma StoreRepresents(tags: seq<nat>, data: seq<seq<nat>>, m: Pages, i: nat, page: seq<nat>)
    requires Probing(tags) && Represents(tags, data, m) && i < SLOTS && tags[i] != 0
    ensures Represents(tags, data[i := page], m[tags[i] - 1 := page])
  {
    hide Probing, HasTag;
    OneTag(tags, i);
    TagMeansPage(tags, data, m, i);
    var m', data' := m[tags[i] - 1 := page], data[i := page];
    forall k | 0 <= k < SLOTS && tags[k] != 0 ensures tags[k] - 1 in m' && m'[tags[k] - 1] == data'[k] {
      TagMeansPage(tags, data, m, k);
    }
    forall q | q in m' ensures HasTag(tags, q) { assert q in m; }
  }

  lemma OneTag(tags: seq<nat>, i: nat)
    requires Probing(tags) && i < |tags| && tags[i] != 0
    ensures |tags| == SLOTS
    ensures forall j :: 0 <= j < SLOTS && j != i ==> tags[j] != tags[i]
  {
    hide Reachable;
  }

  lemma GetFrom(m: Pages, a: nat, size: nat)
    ensures size == 0 ==> Get(m, a, size) == 0
    ensures size > 0 ==> Get(m, a, size) == ByteAt(m, Wrap(a)) + 256 * Get(m, a + 1, size - 1)
  {
  }

  function Times(a: nat, b: nat): nat { a * b }

  lemma Once(b: nat)
    ensures Times(1, b) == b && Times(b, 0) == 0
  {
  }

  lemma Spread(scale: nat, byte: nat, rest: nat)
    ensures Times(scale, byte + 256 * rest) == Times(scale, byte) + Times(scale * 256, rest)
  {
  }

  lemma PutFrom(m: Pages, a: nat, v: nat, size: nat)
    requires Sized(m)
    ensures size == 0 ==> Put(m, a, v, size) == m
    ensures size > 0 ==> Sized(PutByte(m, Wrap(a), v % 256))
    ensures size > 0 ==> Put(m, a, v, size) == Put(PutByte(m, Wrap(a), v % 256), a + 1, v / 256, size - 1)
  {
  }

  // --------------------------------------------------------------- in plain numbers

  /** The first byte written to an empty memory makes one page of 4096 zeros around it. */
  lemma FirstWrite(a: nat, b: nat, c: nat)
    ensures ByteAt(PutByte(NONE, a, b), c) == if c == a then b else if c / 4096 == a / 4096 then 0 else 0xFF
  {
    hide PutByte, ByteAt;
    PutByteEffect(NONE, a, b, c);
    EmptyByte(c);
  }

  lemma EmptyByte(c: nat)
    ensures ByteAt(NONE, c) == 0xFF
  {
  }

  /** A new page is made while there are fewer than 4096. */
  lemma Room(m: Pages, a: nat, b: nat)
    requires Sized(m) && a / 4096 !in m
    ensures |m| >= 4096 ==> PutByte(m, a, b) == m
    ensures |m| < 4096 ==> PutByte(m, a, b).Keys == m.Keys + {a / 4096}
  {
  }

  /** Above the last address, 2^64 - 1, comes address 0. */
  lemma TopWraps(m: Pages)
    ensures Get(m, 0xFFFF_FFFF_FFFF_FFFF, 2) == ByteAt(m, 0xFFFF_FFFF_FFFF_FFFF) + 256 * ByteAt(m, 0)
  {
    hide ByteAt;
    assert Wrap(0xFFFF_FFFF_FFFF_FFFF) == 0xFFFF_FFFF_FFFF_FFFF && Wrap(0x1_0000_0000_0000_0000) == 0;
    assert Get(m, 0x1_0000_0000_0000_0001, 0) == 0;
    assert Get(m, 0x1_0000_0000_0000_0000, 1) == ByteAt(m, 0);
  }
}
