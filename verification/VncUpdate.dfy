/** One framebuffer update of the VNC server: scaling, tile comparison, run merging
    (core/src/vnc.c, send_update), and the client that applies it. */
module VncUpdate {
  import opened Runs
  import opened Arithmetic

  const TILE := 16

  datatype PixFmt = PixFmt(bytesPp: int, bigEndian: bool, rMax: int, gMax: int, bMax: int,
                           rShift: int, gShift: int, bShift: int)

  /** A pixel on the wire: what the server converted, and to which format. */
  datatype Sent = Sent(fmt: PixFmt, argb: int)

  datatype Frame = Frame(w: int, h: int, pix: seq<int>)

  predicate ValidFrame(f: Frame) { f.w > 0 && f.h > 0 && |f.pix| == f.w * f.h }

  /** A screen the protocol's 16-bit sizes can name. */
  predicate ValidSize(cw: int, ch: int) { 0 < cw <= 0xFFFF && 0 < ch <= 0xFFFF }

  datatype Rect = Rect(x: int, y: int, w: int, h: int)
  datatype RawRect = RawRect(r: Rect, rows: seq<seq<Sent>>)

  /** A FramebufferUpdate: its 16-bit rectangle count, the DesktopSize rectangle if any, the rest. */
  datatype Message = Message(count: int, resize: bool, rects: seq<RawRect>)

  // -------------------------------------------------------------------- indices

  function Idx(cw: int, x: int, y: int): int { y * cw + x }

  predicate OnScreen(cw: int, ch: int, x: int, y: int) { 0 <= x < cw && 0 <= y < ch }

  lemma IdxRange(cw: int, ch: int, x: int, y: int)
    requires OnScreen(cw, ch, x, y)
    ensures 0 <= Idx(cw, x, y) < cw * ch
  {
    assert y * cw <= (ch - 1) * cw;
    assert (ch - 1) * cw == ch * cw - cw;
  }

  lemma IdxDivMod(cw: int, x: int, y: int)
    requires 0 <= x < cw
    ensures Idx(cw, x, y) / cw == y && Idx(cw, x, y) % cw == x
  {
    DivUnique(Idx(cw, x, y), cw, y, x);
  }

  lemma DivBound(a: int, n: int, m: int)
    requires n > 0 && 0 <= a < n * m
    ensures 0 <= a / n < m
  {
    assert a == (a / n) * n + a % n;
    LessByProduct(a / n, m, n);
  }

  lemma LessByProduct(p: int, q: int, n: int)
    requires n > 0 && p * n < q * n
    ensures p < q
  {
  }

  lemma ProductLess(p: int, q: int, n: int)
    requires n > 0 && p < q
    ensures p * n < q * n
  {
  }

  lemma IdxOf(cw: int, ch: int, i: int)
    requires 0 < cw && 0 <= i < cw * ch
    ensures OnScreen(cw, ch, i % cw, i / cw) && Idx(cw, i % cw, i / cw) == i
  {
    DivBound(i, cw, ch);
    assert i == (i / cw) * cw + i % cw;
  }

  lemma ScaleBound(k: int, n: int, m: int)
    requires 0 <= k < n && 0 < m
    ensures 0 <= k * m / n < m
    ensures n == m ==> k * m / n == k
  {
    ProductLess(k, n, m);
    assert n * m == m * n;
    assert k * m >= 0;
    DivBound(k * m, n, m);
    if n == m { DivUnique(k * m, n, k, 0); }
  }

  /** The pixel at (x, y) of a screen stored row by row (0 outside it). */
  function Pix(s: seq<int>, cw: int, x: int, y: int): int {
    if 0 <= Idx(cw, x, y) < |s| then s[Idx(cw, x, y)] else 0
  }

  // -------------------------------------------------------------------- scaling

  /** The source pixel shown at (x, y) of a cw by ch screen: nearest neighbour. */
  function ScaledAt(f: Frame, cw: int, ch: int, x: int, y: int): int
    requires 0 < cw && 0 < ch
  {
    Pix(f.pix, f.w, x * f.w / cw, y * f.h / ch)
  }

  /** The frame as a cw by ch screen shows it. */
  ghost predicate Shows(want: seq<int>, f: Frame, cw: int, ch: int)
    requires 0 < cw && 0 < ch
  {
    && |want| == cw * ch
    && forall x, y :: OnScreen(cw, ch, x, y) ==> Pix(want, cw, x, y) == ScaledAt(f, cw, ch, x, y)
  }

  /** Scaling reads only pixels of the frame. */
  lemma ScaledInFrame(f: Frame, cw: int, ch: int, x: int, y: int)
    requires ValidFrame(f) && OnScreen(cw, ch, x, y)
    ensures OnScreen(f.w, f.h, x * f.w / cw, y * f.h / ch)
    ensures 0 <= Idx(f.w, x * f.w / cw, y * f.h / ch) < |f.pix|
  {
    ScaleBound(x, cw, f.w);
    ScaleBound(y, ch, f.h);
    IdxRange(f.w, f.h, x * f.w / cw, y * f.h / ch);
  }

  /** Of n positions, position p of m stands over k: k / m comes at or before p / n, and (k + 1) / m after it. */
  predicate Over(k: int, m: int, p: int, n: int) { k * n <= p * m < (k + 1) * n }

  /** Every screen pixel is the frame's pixel it stands over, row by row from the top and column by column from the left. */
  ghost predicate NearestNeighbour(want: seq<int>, f: Frame, cw: int, ch: int) {
    && |want| == cw * ch
    && forall x, y, i, j :: 0 <= x < cw && 0 <= y < ch && Over(i, f.w, x, cw) && Over(j, f.h, y, ch) ==>
         0 <= j * f.w + i < |f.pix| && 0 <= y * cw + x < |want| && want[y * cw + x] == f.pix[j * f.w + i]
  }

  lemma OverQuotient(k: int, m: int, p: int, n: int)
    requires n > 0 && Over(k, m, p, n)
    ensures p * m / n == k
  {
    assert (k + 1) * n == k * n + n;
    DivUnique(p * m, n, k, p * m - k * n);
  }

  /** What is shown is that, in whole numbers. */
  lemma ShowsNearest(want: seq<int>, f: Frame, cw: int, ch: int)
    requires ValidFrame(f) && 0 < cw && 0 < ch && Shows(want, f, cw, ch)
    ensures NearestNeighbour(want, f, cw, ch)
  {
    hide Over, Shows;
    forall x, y, i, j | 0 <= x < cw && 0 <= y < ch && Over(i, f.w, x, cw) && Over(j, f.h, y, ch)
      ensures 0 <= j * f.w + i < |f.pix| && 0 <= y * cw + x < |want| && want[y * cw + x] == f.pix[j * f.w + i]
    {
      OverQuotient(i, f.w, x, cw);
      OverQuotient(j, f.h, y, ch);
      ScaledInFrame(f, cw, ch, x, y);
      IdxRange(cw, ch, x, y);
      ShownAt(want, f, cw, ch, x, y);
    }
    ShownSize(want, f, cw, ch);
  }

  lemma ShownAt(want: seq<int>, f: Frame, cw: int, ch: int, x: int, y: int)
    requires 0 < cw && 0 < ch && Shows(want, f, cw, ch) && OnScreen(cw, ch, x, y)
    ensures |want| == cw * ch && Pix(want, cw, x, y) == Pix(f.pix, f.w, x * f.w / cw, y * f.h / ch)
  {
    hide Pix;
  }

  lemma ShownSize(want: seq<int>, f: Frame, cw: int, ch: int)
    requires 0 < cw && 0 < ch && Shows(want, f, cw, ch)
    ensures |want| == cw * ch
  {
  }

  /** The two descriptions of an unscaled frame agree. */
  lemma SameSizeShowsItself(f: Frame)
    requires ValidFrame(f)
    ensures Shows(f.pix, f, f.w, f.h)
  {
    forall x, y | OnScreen(f.w, f.h, x, y) ensures Pix(f.pix, f.w, x, y) == ScaledAt(f, f.w, f.h, x, y) {
      ScaleBound(x, f.w, f.w);
      ScaleBound(y, f.h, f.h);
    }
  }

  /** One pixel more of the row-by-row fill. */
  lemma PutPix(before: seq<int>, cw: int, ch: int, x: int, y: int, v: int)
    requires |before| == cw * ch && OnScreen(cw, ch, x, y)
    ensures 0 <= Idx(cw, x, y) < |before|
    ensures forall i, j :: OnScreen(cw, ch, i, j) ==>
      Pix(before[Idx(cw, x, y) := v], cw, i, j) == if i == x && j == y then v else Pix(before, cw, i, j)
  {
    IdxRange(cw, ch, x, y);
    forall i, j | OnScreen(cw, ch, i, j)
      ensures Pix(before[Idx(cw, x, y) := v], cw, i, j) == if i == x && j == y then v else Pix(before, cw, i, j)
    {
      IdxRange(cw, ch, i, j);
      IdxDivMod(cw, i, j);
      IdxDivMod(cw, x, y);
    }
  }

  /** All pixels above row y, and of row y those left of x. */
  ghost predicate Filled(a: seq<int>, f: Frame, cw: int, ch: int, x: int, y: int)
    requires 0 < cw && 0 < ch
  {
    forall i, j :: OnScreen(cw, ch, i, j) && (j < y || (j == y && i < x)) ==>
      Pix(a, cw, i, j) == ScaledAt(f, cw, ch, i, j)
  }

  method BuildWant(f: Frame, cw: int, ch: int) returns (want: seq<int>)
    requires ValidFrame(f) && 0 < cw && 0 < ch
    ensures Shows(want, f, cw, ch) && NearestNeighbour(want, f, cw, ch)
  {
    hide Pix, Idx, ScaledAt, NearestNeighbour;
    if f.w == cw && f.h == ch {
      SameSizeShowsItself(f);
      ShowsNearest(f.pix, f, cw, ch);
      return f.pix;
    }
    Area(cw, ch);
    var a := new int[cw * ch];
    for y := 0 to ch
      invariant Filled(a[..], f, cw, ch, 0, y)
    {
      for x := 0 to cw
        invariant Filled(a[..], f, cw, ch, x, y)
      {
        PutPix(a[..], cw, ch, x, y, ScaledAt(f, cw, ch, x, y));
        ghost var before := a[..];
        a[Idx(cw, x, y)] := ScaledAt(f, cw, ch, x, y);
        assert a[..] == before[Idx(cw, x, y) := ScaledAt(f, cw, ch, x, y)];
      }
    }
    want := a[..];
    ShowsNearest(want, f, cw, ch);
  }

  lemma Area(cw: int, ch: int)
    requires 0 < cw && 0 < ch
    ensures cw * ch > 0
  {
  }

  // ---------------------------------------------------------------- dirty tiles

  function Min(a: int, b: int): int { if a < b then a else b }

  predicate InTile(cw: int, ch: int, tx: int, ty: int, x: int, y: int) {
    OnScreen(cw, ch, x, y) && x / TILE == tx && y / TILE == ty
  }

  ghost predicate TileDiffers(want: seq<int>, last: seq<int>, cw: int, ch: int, tx: int, ty: int) {
    exists x, y :: InTile(cw, ch, tx, ty, x, y) && Pix(want, cw, x, y) != Pix(last, cw, x, y)
  }

  /** Comparing a stretch of one row is comparing its pixels. */
  lemma RowSlices(a: seq<int>, b: seq<int>, cw: int, ch: int, x0: int, x1: int, y: int)
    requires |a| == |b| == cw * ch && 0 <= x0 < x1 <= cw && 0 <= y < ch
    ensures 0 <= Idx(cw, x0, y) <= Idx(cw, x0, y) + (x1 - x0) <= |a|
    ensures a[Idx(cw, x0, y)..Idx(cw, x0, y) + (x1 - x0)] == b[Idx(cw, x0, y)..Idx(cw, x0, y) + (x1 - x0)] <==>
      forall x :: x0 <= x < x1 ==> Pix(a, cw, x, y) == Pix(b, cw, x, y)
  {
    IdxRange(cw, ch, x0, y);
    IdxRange(cw, ch, x1 - 1, y);
    var k := Idx(cw, x0, y);
    var s, t := a[k..k + (x1 - x0)], b[k..k + (x1 - x0)];
    forall x | x0 <= x < x1 ensures Pix(a, cw, x, y) == s[x - x0] && Pix(b, cw, x, y) == t[x - x0] {
      IdxRange(cw, ch, x, y);
    }
    if forall x :: x0 <= x < x1 ==> Pix(a, cw, x, y) == Pix(b, cw, x, y) {
      forall i | 0 <= i < x1 - x0 ensures s[i] == t[i] { assert Pix(a, cw, x0 + i, y) == Pix(b, cw, x0 + i, y); }
    }
  }

  method TileDirty(want: seq<int>, last: seq<int>, cw: int, ch: int, tx: int, ty: int, full: bool)
    returns (dirty: bool)
    requires |want| == |last| == cw * ch && 0 <= tx && tx * TILE < cw && 0 <= ty && ty * TILE < ch
    ensures dirty <==> full || TileDiffers(want, last, cw, ch, tx, ty)
  {
    hide Pix, Idx;
    var x0, y0 := tx * TILE, ty * TILE;
    var x1 := if x0 + TILE > cw then cw else x0 + TILE;
    var y1 := if y0 + TILE > ch then ch else y0 + TILE;
    dirty := full;
    var y := y0;
    while !dirty && y < y1
      invariant y0 <= y <= y1
      invariant dirty ==> full || TileDiffers(want, last, cw, ch, tx, ty)
      invariant !dirty ==> !full && forall i, j :: x0 <= i < x1 && y0 <= j < y ==> Pix(want, cw, i, j) == Pix(last, cw, i, j)
    {
      RowSlices(want, last, cw, ch, x0, x1, y);
      var k := Idx(cw, x0, y);
      dirty := want[k..k + (x1 - x0)] != last[k..k + (x1 - x0)];
      if dirty {
        ghost var x :| x0 <= x < x1 && Pix(want, cw, x, y) != Pix(last, cw, x, y);
        assert InTile(cw, ch, tx, ty, x, y);
      }
      y := y + 1;
    }
    if !dirty { NoDifference(want, last, cw, ch, tx, ty); }
  }

  lemma NoDifference(want: seq<int>, last: seq<int>, cw: int, ch: int, tx: int, ty: int)
    requires 0 <= tx && 0 <= ty
    requires forall i, j :: tx * TILE <= i < Min(tx * TILE + TILE, cw) && ty * TILE <= j < Min(ty * TILE + TILE, ch) ==>
      Pix(want, cw, i, j) == Pix(last, cw, i, j)
    ensures !TileDiffers(want, last, cw, ch, tx, ty)
  {
    hide Pix;
  }

  // ----------------------------------------------------------------------- runs

  function Tiles(n: int): int { (n + TILE - 1) / TILE }

  /** A run of tiles [a, b) of tile row ty, as a rectangle. */
  function RunRect(cw: int, ch: int, ty: int, run: (int, int)): Rect {
    Rect(run.0 * TILE, ty * TILE, Min(run.1 * TILE, cw) - run.0 * TILE, Min(ty * TILE + TILE, ch) - ty * TILE)
  }

  ghost predicate InRuns(runs: seq<(int, int)>, t: int) { exists i :: 0 <= i < |runs| && runs[i].0 <= t < runs[i].1 }

  /** Runs in order, none empty, none touching the next, none past n. */
  ghost predicate Ordered(runs: seq<(int, int)>, n: int) {
    && (forall i :: 0 <= i < |runs| ==> 0 <= runs[i].0 < runs[i].1 <= n)
    && (forall i :: 0 < i < |runs| ==> runs[i - 1].1 < runs[i].0)
  }

  /** Which tiles of row ty are to be sent. */
  ghost function DirtyRow(want: seq<int>, last: seq<int>, cw: int, ch: int, ty: int, full: bool): (ds: seq<bool>)
    requires 0 < cw
    ensures |ds| == Tiles(cw)
  {
    seq(Tiles(cw), t => full || TileDiffers(want, last, cw, ch, t, ty))
  }

  /** The runs, and the one still open from start if start >= 0, are the dirty tiles before tx. */
  ghost predicate RunsSoFar(ds: seq<bool>, runs: seq<(int, int)>, start: int, tx: int) {
    && 0 <= tx <= |ds| && -1 <= start < tx
    && Ordered(runs, if start >= 0 then start else tx)
    && (|runs| > 0 ==> runs[|runs| - 1].1 < if start >= 0 then start else tx)
    && forall t :: 0 <= t < tx ==> (ds[t] <==> InRuns(runs, t) || 0 <= start <= t)
  }

  /** A tile row's runs are exactly its dirty tiles. */
  ghost predicate RunsOf(ds: seq<bool>, runs: seq<(int, int)>) {
    Ordered(runs, |ds|) && forall t :: 0 <= t < |ds| ==> (ds[t] <==> InRuns(runs, t))
  }

  function RunRects(cw: int, ch: int, ty: int, runs: seq<(int, int)>): seq<Rect> {
    seq(|runs|, i requires 0 <= i < |runs| => RunRect(cw, ch, ty, runs[i]))
  }

  lemma InRunsPush(runs: seq<(int, int)>, run: (int, int), t: int)
    ensures InRuns(runs + [run], t) <==> InRuns(runs, t) || run.0 <= t < run.1
  {
    if InRuns(runs, t) {
      var i :| 0 <= i < |runs| && runs[i].0 <= t < runs[i].1;
      assert (runs + [run])[i] == runs[i];
    }
    if run.0 <= t < run.1 { assert (runs + [run])[|runs|] == run; }
  }

  lemma TileCount(n: int, t: int)
    requires 0 <= t
    ensures t < Tiles(n) <==> t * TILE < n
  {
  }

  lemma DirtyTileOpensOrExtends(ds: seq<bool>, runs: seq<(int, int)>, start: int, tx: int)
    requires RunsSoFar(ds, runs, start, tx) && tx < |ds| && ds[tx]
    ensures RunsSoFar(ds, runs, if start < 0 then tx else start, tx + 1)
  {
    hide InRuns;
    PastRuns(runs, if start >= 0 then start else tx);
  }

  lemma CleanTileCloses(ds: seq<bool>, runs: seq<(int, int)>, start: int, tx: int)
    requires RunsSoFar(ds, runs, start, tx) && tx < |ds| && !ds[tx]
    ensures RunsSoFar(ds, if start >= 0 then runs + [(start, tx)] else runs, -1, tx + 1)
  {
    hide InRuns, Ordered;
    PastRuns(runs, if start >= 0 then start else tx);
    if start >= 0 {
      forall t ensures InRuns(runs + [(start, tx)], t) <==> InRuns(runs, t) || start <= t < tx {
        InRunsPush(runs, (start, tx), t);
      }
      OrderedPush(runs, start, tx, tx + 1);
    } else {
      OrderedUpTo(runs, tx, tx + 1);
    }
  }

  lemma OrderedPush(runs: seq<(int, int)>, start: int, tx: int, n: int)
    requires Ordered(runs, start) && 0 <= start < tx <= n && (|runs| > 0 ==> runs[|runs| - 1].1 < start)
    ensures Ordered(runs + [(start, tx)], n)
  {
  }

  lemma OrderedUpTo(runs: seq<(int, int)>, m: int, n: int)
    requires Ordered(runs, m) && m <= n
    ensures Ordered(runs, n)
  {
  }

  lemma EndOfRowCloses(ds: seq<bool>, runs: seq<(int, int)>, start: int)
    requires RunsSoFar(ds, runs, start, |ds|)
    ensures RunsOf(ds, if start >= 0 then runs + [(start, |ds|)] else runs)
  {
    hide InRuns;
    forall t ensures InRuns(runs + [(start, |ds|)], t) <==> InRuns(runs, t) || start <= t < |ds| {
      InRunsPush(runs, (start, |ds|), t);
    }
  }

  lemma PushRect(cw: int, ch: int, ty: int, runs: seq<(int, int)>, run: (int, int))
    ensures RunRects(cw, ch, ty, runs + [run]) == RunRects(cw, ch, ty, runs) + [RunRect(cw, ch, ty, run)]
  {
  }

  method TileRow(want: seq<int>, last: seq<int>, cw: int, ch: int, ty: int, full: bool)
    returns (rects: seq<Rect>, ghost runs: seq<(int, int)>)
    requires 0 < cw && |want| == |last| == cw * ch && 0 <= ty && ty * TILE < ch
    ensures rects == RunRects(cw, ch, ty, runs)
    ensures RunsOf(DirtyRow(want, last, cw, ch, ty, full), runs)
  {
    hide TileDiffers, InRuns, Ordered, RunsSoFar, RunRects;
    rects, runs := [], [];
    var start, txN := -1, Tiles(cw);
    ghost var ds := DirtyRow(want, last, cw, ch, ty, full);
    var y0 := ty * TILE;
    var th := if y0 + TILE > ch then ch - y0 else TILE;
    NoRuns(ds, cw, ch, ty);
    for tx := 0 to txN + 1
      invariant rects == RunRects(cw, ch, ty, runs)
      invariant if tx <= txN then RunsSoFar(ds, runs, start, tx) else RunsOf(ds, runs)
    {
      var dirty := false;
      TileCount(cw, tx);
      if tx < txN {
        dirty := TileDirty(want, last, cw, ch, tx, ty, full);
        if dirty { DirtyTileOpensOrExtends(ds, runs, start, tx); } else { CleanTileCloses(ds, runs, start, tx); }
      } else {
        EndOfRowCloses(ds, runs, start);
      }
      if dirty && start < 0 { start := tx; }
      if !dirty && start >= 0 {
        var x1 := tx * TILE;
        if x1 > cw { x1 := cw; }
        PushRect(cw, ch, ty, runs, (start, tx));
        rects := rects + [Rect(start * TILE, y0, x1 - start * TILE, th)];
        runs := runs + [(start, tx)];
        start := -1;
      }
    }
  }

  lemma NoRuns(ds: seq<bool>, cw: int, ch: int, ty: int)
    ensures RunsSoFar(ds, [], -1, 0) && RunRects(cw, ch, ty, []) == []
  {
  }

  lemma PastRuns(runs: seq<(int, int)>, n: int)
    requires Ordered(runs, n)
    ensures forall t :: n <= t ==> !InRuns(runs, t)
  {
  }

  // ----------------------------------------------------------------- rectangles

  predicate Inside(r: Rect, x: int, y: int) { r.x <= x < r.x + r.w && r.y <= y < r.y + r.h }

  ghost predicate Covered(rects: seq<Rect>, x: int, y: int) { exists i :: 0 <= i < |rects| && Inside(rects[i], x, y) }

  /** No pixel is in two rectangles. */
  ghost predicate Disjoint(rects: seq<Rect>) {
    forall i, j, x, y :: 0 <= i < j < |rects| && Inside(rects[i], x, y) ==> !Inside(rects[j], x, y)
  }

  /** Non-empty rectangles on the screen, between rows y0 and y1. */
  ghost predicate Within(rects: seq<Rect>, cw: int, y0: int, y1: int) {
    forall i :: 0 <= i < |rects| ==>
      var r := rects[i]; r.w > 0 && r.h > 0 && 0 <= r.x && r.x + r.w <= cw && y0 <= r.y && r.y + r.h <= y1
  }

  /** The pixels of rows y0 to y1 that are sent are those of the dirty tiles. */
  ghost predicate CoversDirty(want: seq<int>, last: seq<int>, cw: int, ch: int, full: bool,
                              rects: seq<Rect>, y0: int, y1: int) {
    forall x, y :: OnScreen(cw, ch, x, y) && y0 <= y < y1 ==>
      (Covered(rects, x, y) <==> full || TileDiffers(want, last, cw, ch, x / TILE, y / TILE))
  }

  /** Where tile row ty begins. */
  function RowTop(ch: int, ty: int): int { Min(ty * TILE, ch) }

  lemma RunCovers(cw: int, ch: int, ty: int, run: (int, int), x: int, y: int)
    requires 0 <= run.0 < run.1 <= Tiles(cw) && 0 <= ty && OnScreen(cw, ch, x, y)
    ensures Inside(RunRect(cw, ch, ty, run), x, y) <==> y / TILE == ty && run.0 <= x / TILE < run.1
  {
  }

  lemma RunBounds(cw: int, ch: int, ty: int, run: (int, int))
    requires 0 <= run.0 < run.1 <= Tiles(cw) && 0 <= ty && ty * TILE < ch && 0 < cw
    ensures var r := RunRect(cw, ch, ty, run);
      r.w > 0 && r.h > 0 && 0 <= r.x && r.x + r.w <= cw && r.y == RowTop(ch, ty) && r.y + r.h == RowTop(ch, ty + 1)
  {
    TileCount(cw, run.0);
  }

  lemma RowWithin(cw: int, ch: int, ty: int, runs: seq<(int, int)>)
    requires 0 < cw && 0 <= ty && ty * TILE < ch && Ordered(runs, Tiles(cw))
    ensures Within(RunRects(cw, ch, ty, runs), cw, RowTop(ch, ty), RowTop(ch, ty + 1))
  {
    hide RunRect, RowTop, Tiles;
    var rects := RunRects(cw, ch, ty, runs);
    forall i | 0 <= i < |rects|
      ensures var r := rects[i];
        r.w > 0 && r.h > 0 && 0 <= r.x && r.x + r.w <= cw && RowTop(ch, ty) <= r.y && r.y + r.h <= RowTop(ch, ty + 1)
    {
      RunBounds(cw, ch, ty, runs[i]);
    }
  }

  lemma RowCovers(want: seq<int>, last: seq<int>, cw: int, ch: int, ty: int, full: bool, runs: seq<(int, int)>)
    requires 0 < cw && 0 <= ty && ty * TILE < ch && RunsOf(DirtyRow(want, last, cw, ch, ty, full), runs)
    ensures CoversDirty(want, last, cw, ch, full, RunRects(cw, ch, ty, runs), RowTop(ch, ty), RowTop(ch, ty + 1))
  {
    hide TileDiffers, RunRect;
    var rects := RunRects(cw, ch, ty, runs);
    forall x, y | OnScreen(cw, ch, x, y) && RowTop(ch, ty) <= y < RowTop(ch, ty + 1)
      ensures Covered(rects, x, y) <==> full || TileDiffers(want, last, cw, ch, x / TILE, y / TILE)
    {
      RowCoversPixel(cw, ch, ty, runs, x, y);
      assert y / TILE == ty && 0 <= x / TILE < Tiles(cw);
      assert DirtyRow(want, last, cw, ch, ty, full)[x / TILE] == (full || TileDiffers(want, last, cw, ch, x / TILE, ty));
    }
  }

  lemma RowCoversPixel(cw: int, ch: int, ty: int, runs: seq<(int, int)>, x: int, y: int)
    requires 0 <= ty && OnScreen(cw, ch, x, y) && y / TILE == ty && Ordered(runs, Tiles(cw))
    ensures Covered(RunRects(cw, ch, ty, runs), x, y) <==> InRuns(runs, x / TILE)
  {
    hide RunRect, Tiles;
    var rects := RunRects(cw, ch, ty, runs);
    forall i | 0 <= i < |runs| ensures Inside(rects[i], x, y) <==> runs[i].0 <= x / TILE < runs[i].1 {
      RunCovers(cw, ch, ty, runs[i], x, y);
    }
    if InRuns(runs, x / TILE) {
      var i :| 0 <= i < |runs| && runs[i].0 <= x / TILE < runs[i].1;
      assert Inside(rects[i], x, y);
    }
  }

  lemma {:induction false} OrderedApart(runs: seq<(int, int)>, n: int, i: int, j: int)
    requires Ordered(runs, n) && 0 <= i < j < |runs|
    ensures runs[i].1 < runs[j].0
    decreases j
  {
    if i < j - 1 { OrderedApart(runs, n, i, j - 1); }
  }

  lemma RowDisjoint(cw: int, ch: int, ty: int, runs: seq<(int, int)>)
    requires 0 < cw && 0 <= ty && ty * TILE < ch && Ordered(runs, Tiles(cw))
    ensures Disjoint(RunRects(cw, ch, ty, runs))
  {
    hide Tiles;
    var rects := RunRects(cw, ch, ty, runs);
    forall i, j, x, y | 0 <= i < j < |rects| && Inside(rects[i], x, y) ensures !Inside(rects[j], x, y) {
      OrderedApart(runs, Tiles(cw), i, j);
    }
  }

  /** A row's runs are separated by clean tiles, so there are at most half as many as tiles. */
  lemma {:induction false} RowCount(runs: seq<(int, int)>, n: int, k: nat)
    requires Ordered(runs, n) && 0 < k <= |runs|
    ensures 2 * k <= runs[k - 1].1 + 1
    decreases k
  {
    if k > 1 { RowCount(runs, n, k - 1); }
  }

  /** Each rectangle of an incremental update holds a pixel that changed. */
  ghost predicate EachDiffers(want: seq<int>, last: seq<int>, cw: int, ch: int, rects: seq<Rect>) {
    forall i :: 0 <= i < |rects| ==> RectDiffers(want, last, cw, ch, rects[i])
  }

  ghost predicate RectDiffers(want: seq<int>, last: seq<int>, cw: int, ch: int, r: Rect) {
    exists x, y :: OnScreen(cw, ch, x, y) && Inside(r, x, y) && Pix(want, cw, x, y) != Pix(last, cw, x, y)
  }

  lemma RowDiffers(want: seq<int>, last: seq<int>, cw: int, ch: int, ty: int, runs: seq<(int, int)>)
    requires 0 < cw && 0 <= ty && ty * TILE < ch && RunsOf(DirtyRow(want, last, cw, ch, ty, false), runs)
    ensures EachDiffers(want, last, cw, ch, RunRects(cw, ch, ty, runs))
  {
    hide RunRect, Pix, Tiles;
    var rects := RunRects(cw, ch, ty, runs);
    var ds := DirtyRow(want, last, cw, ch, ty, false);
    forall i | 0 <= i < |rects| ensures RectDiffers(want, last, cw, ch, rects[i])
    {
      var t := runs[i].0;
      assert InRuns(runs, t);
      assert ds[t];
      var x, y :| InTile(cw, ch, t, ty, x, y) && Pix(want, cw, x, y) != Pix(last, cw, x, y);
      RunCovers(cw, ch, ty, runs[i], x, y);
      assert OnScreen(cw, ch, x, y) && Inside(rects[i], x, y);
    }
  }

  /** The rectangles of the rows above y1: on the screen, apart, and exactly the dirty tiles. */
  ghost predicate RectsOf(want: seq<int>, last: seq<int>, cw: int, ch: int, full: bool, rects: seq<Rect>, y1: int) {
    && Within(rects, cw, 0, y1) && Disjoint(rects)
    && CoversDirty(want, last, cw, ch, full, rects, 0, y1)
    && (!full ==> EachDiffers(want, last, cw, ch, rects))
  }

  lemma CoveredAppend(a: seq<Rect>, b: seq<Rect>, x: int, y: int)
    ensures Covered(a + b, x, y) <==> Covered(a, x, y) || Covered(b, x, y)
  {
    var c := a + b;
    assert forall i :: 0 <= i < |a| ==> c[i] == a[i];
    assert forall i :: 0 <= i < |b| ==> c[|a| + i] == b[i];
  }

  lemma CoveredWithin(a: seq<Rect>, cw: int, y0: int, y1: int, x: int, y: int)
    requires Within(a, cw, y0, y1) && Covered(a, x, y)
    ensures y0 <= y < y1 && 0 <= x < cw
  {
  }

  lemma CoversAppend(want: seq<int>, last: seq<int>, cw: int, ch: int, full: bool,
                     a: seq<Rect>, b: seq<Rect>, y1: int, y2: int)
    requires CoversDirty(want, last, cw, ch, full, a, 0, y1) && CoversDirty(want, last, cw, ch, full, b, y1, y2)
    requires Within(a, cw, 0, y1) && Within(b, cw, y1, y2)
    ensures CoversDirty(want, last, cw, ch, full, a + b, 0, y2)
  {
    hide Within, TileDiffers, Covered;
    forall x, y | OnScreen(cw, ch, x, y) && 0 <= y < y2
      ensures Covered(a + b, x, y) <==> full || TileDiffers(want, last, cw, ch, x / TILE, y / TILE)
    {
      CoveredAppend(a, b, x, y);
      if Covered(a, x, y) { CoveredWithin(a, cw, 0, y1, x, y); }
      if Covered(b, x, y) { CoveredWithin(b, cw, y1, y2, x, y); }
    }
  }

  lemma DisjointAppend(a: seq<Rect>, b: seq<Rect>, cw: int, y1: int, y2: int)
    requires Disjoint(a) && Disjoint(b) && Within(a, cw, 0, y1) && Within(b, cw, y1, y2)
    ensures Disjoint(a + b)
  {
    var c := a + b;
    forall i, j, x, y | 0 <= i < j < |c| && Inside(c[i], x, y) ensures !Inside(c[j], x, y) {
      assert i < |a| ==> c[i] == a[i];
      assert j >= |a| ==> c[j] == b[j - |a|];
      if i >= |a| { assert c[i] == b[i - |a|]; }
      if j < |a| { assert c[j] == a[j]; }
    }
  }

  lemma WithinAppend(a: seq<Rect>, b: seq<Rect>, cw: int, y1: int, y2: int)
    requires Within(a, cw, 0, y1) && Within(b, cw, y1, y2) && 0 <= y1 <= y2
    ensures Within(a + b, cw, 0, y2)
  {
  }

  lemma DiffersAppend(want: seq<int>, last: seq<int>, cw: int, ch: int, a: seq<Rect>, b: seq<Rect>)
    requires EachDiffers(want, last, cw, ch, a) && EachDiffers(want, last, cw, ch, b)
    ensures EachDiffers(want, last, cw, ch, a + b)
  {
    hide RectDiffers;
  }

  /** One tile row more. */
  lemma RowAdded(want: seq<int>, last: seq<int>, cw: int, ch: int, full: bool, rects: seq<Rect>, ty: int, runs: seq<(int, int)>)
    requires 0 < cw && 0 <= ty && ty * TILE < ch && RunsOf(DirtyRow(want, last, cw, ch, ty, full), runs)
    requires RectsOf(want, last, cw, ch, full, rects, RowTop(ch, ty))
    ensures RectsOf(want, last, cw, ch, full, rects + RunRects(cw, ch, ty, runs), RowTop(ch, ty + 1))
  {
    hide Within, Disjoint, CoversDirty, EachDiffers, RunRects, DirtyRow, Ordered, InRuns, Tiles;
    var row := RunRects(cw, ch, ty, runs);
    RowSize(want, last, cw, ch, ty, full);
    RowWithin(cw, ch, ty, runs);
    RowCovers(want, last, cw, ch, ty, full, runs);
    RowDisjoint(cw, ch, ty, runs);
    WithinAppend(rects, row, cw, RowTop(ch, ty), RowTop(ch, ty + 1));
    DisjointAppend(rects, row, cw, RowTop(ch, ty), RowTop(ch, ty + 1));
    CoversAppend(want, last, cw, ch, full, rects, row, RowTop(ch, ty), RowTop(ch, ty + 1));
    if !full {
      RowDiffers(want, last, cw, ch, ty, runs);
      DiffersAppend(want, last, cw, ch, rects, row);
    }
  }

  lemma RowSize(want: seq<int>, last: seq<int>, cw: int, ch: int, ty: int, full: bool)
    requires 0 < cw
    ensures |DirtyRow(want, last, cw, ch, ty, full)| == Tiles(cw)
  {
  }

  /** A full row is one run. */
  lemma FullRow(ds: seq<bool>, runs: seq<(int, int)>)
    requires RunsOf(ds, runs) && forall t :: 0 <= t < |ds| ==> ds[t]
    ensures |runs| <= 1
  {
    if |runs| >= 2 {
      var t := runs[0].1;
      assert runs[1 - 1].1 < runs[1].0;
      assert ds[t];
      var i :| 0 <= i < |runs| && runs[i].0 <= t < runs[i].1;
      if i > 0 { OrderedApart(runs, |ds|, 0, i); }
    }
  }

  lemma RowSizes(want: seq<int>, last: seq<int>, cw: int, ch: int, ty: int, full: bool, runs: seq<(int, int)>)
    requires 0 < cw && RunsOf(DirtyRow(want, last, cw, ch, ty, full), runs)
    ensures |runs| <= RowMax(cw, full)
  {
    hide TileDiffers, Tiles;
    if full { FullRow(DirtyRow(want, last, cw, ch, ty, full), runs); }
    if |runs| > 0 { RowCount(runs, Tiles(cw), |runs|); }
  }

  /** The most rectangles a tile row can need. */
  function RowMax(cw: int, full: bool): int { if full then 1 else (Tiles(cw) + 1) / 2 }

  method DirtyRects(want: seq<int>, last: seq<int>, cw: int, ch: int, full: bool) returns (rects: seq<Rect>)
    requires 0 < cw && 0 < ch && |want| == |last| == cw * ch
    ensures RectsOf(want, last, cw, ch, full, rects, ch)
    ensures |rects| <= Tiles(ch) * RowMax(cw, full)
  {
    hide RectsOf, RunsOf, RowMax, DirtyRow;
    rects := [];
    var tyN := Tiles(ch);
    NoRects(want, last, cw, ch, full);
    for ty := 0 to tyN
      invariant RectsOf(want, last, cw, ch, full, rects, RowTop(ch, ty))
      invariant |rects| <= ty * RowMax(cw, full)
    {
      TileCount(ch, ty);
      var row, runs := TileRow(want, last, cw, ch, ty, full);
      RowAdded(want, last, cw, ch, full, rects, ty, runs);
      RowSizes(want, last, cw, ch, ty, full, runs);
      Distribute(ty, RowMax(cw, full));
      rects := rects + row;
    }
    assert RowTop(ch, tyN) == ch;
  }

  lemma Distribute(a: int, b: int)
    ensures (a + 1) * b == a * b + b
  {
  }

  lemma NoRects(want: seq<int>, last: seq<int>, cw: int, ch: int, full: bool)
    requires 0 < ch
    ensures RectsOf(want, last, cw, ch, full, [], RowTop(ch, 0))
  {
  }

  // ---------------------------------------------------------------- the message

  /** A rectangle as sent: its pixels of the wanted screen, row by row, converted to fmt. */
  ghost predicate CopyOf(raw: RawRect, want: seq<int>, cw: int, fmt: PixFmt) {
    && |raw.rows| == raw.r.h
    && forall j :: 0 <= j < raw.r.h ==> RowCopy(raw.rows[j], want, cw, fmt, raw.r, raw.r.y + j)
  }

  ghost predicate RowCopy(row: seq<Sent>, want: seq<int>, cw: int, fmt: PixFmt, r: Rect, y: int) {
    |row| == r.w && forall i :: 0 <= i < r.w ==> row[i] == Sent(fmt, Pix(want, cw, r.x + i, y))
  }

  method CopyRect(want: seq<int>, cw: int, ch: int, fmt: PixFmt, r: Rect) returns (raw: RawRect)
    requires |want| == cw * ch && 0 <= r.x && r.x + r.w <= cw && 0 <= r.y && r.y + r.h <= ch && r.w > 0 && r.h > 0
    ensures raw.r == r && CopyOf(raw, want, cw, fmt)
  {
    hide Idx;
    var rows: seq<seq<Sent>> := [];
    for y := r.y to r.y + r.h
      invariant |rows| == y - r.y
      invariant forall j :: 0 <= j < |rows| ==> RowCopy(rows[j], want, cw, fmt, r, r.y + j)
    {
      var row: seq<Sent> := [];
      for x := 0 to r.w
        invariant |row| == x && forall i :: 0 <= i < x ==> row[i] == Sent(fmt, Pix(want, cw, r.x + i, y))
      {
        IdxRange(cw, ch, r.x + x, y);
        row := row + [Sent(fmt, want[Idx(cw, r.x + x, y)])];
      }
      rows := rows + [row];
    }
    raw := RawRect(r, rows);
  }

  function Shapes(raws: seq<RawRect>): (rects: seq<Rect>)
    ensures |rects| == |raws|
  {
    seq(|raws|, i requires 0 <= i < |raws| => raws[i].r)
  }

  ghost predicate Copies(raws: seq<RawRect>, want: seq<int>, cw: int, fmt: PixFmt) {
    forall i :: 0 <= i < |raws| ==> CopyOf(raws[i], want, cw, fmt)
  }

  method CopyRects(want: seq<int>, cw: int, ch: int, fmt: PixFmt, rects: seq<Rect>) returns (raws: seq<RawRect>)
    requires |want| == cw * ch && Within(rects, cw, 0, ch)
    ensures Shapes(raws) == rects && Copies(raws, want, cw, fmt)
  {
    hide CopyOf;
    raws := [];
    for i := 0 to |rects|
      invariant |raws| == i && (forall k :: 0 <= k < i ==> raws[k].r == rects[k]) && Copies(raws, want, cw, fmt)
    {
      var raw := CopyRect(want, cw, ch, fmt, rects[i]);
      raws := raws + [raw];
    }
    assert Shapes(raws) == rects;
  }

  /** What send_update puts on the wire: the whole update as one message. */
  ghost predicate IsUpdate(m: Message, want: seq<int>, last: seq<int>, cw: int, ch: int, fmt: PixFmt, full: bool, resize: bool) {
    && RectsOf(want, last, cw, ch, full, Shapes(m.rects), ch) && Copies(m.rects, want, cw, fmt)
    && |m.rects| <= Tiles(ch) * RowMax(cw, full)
    && m.resize == resize && m.count == (|m.rects| + (if resize then 1 else 0)) % 0x10000
  }

  method MakeUpdate(want: seq<int>, last: seq<int>, cw: int, ch: int, fmt: PixFmt, full: bool, resize: bool)
    returns (m: Message)
    requires 0 < cw && 0 < ch && |want| == |last| == cw * ch
    ensures IsUpdate(m, want, last, cw, ch, fmt, full, resize)
  {
    hide RectsOf, Copies, RowMax, Tiles;
    var rects := DirtyRects(want, last, cw, ch, full);
    RectsWithin(want, last, cw, ch, full, rects);
    var raws := CopyRects(want, cw, ch, fmt, rects);
    m := Message((|raws| + (if resize then 1 else 0)) % 0x10000, resize, raws);
  }

  lemma RectsWithin(want: seq<int>, last: seq<int>, cw: int, ch: int, full: bool, rects: seq<Rect>)
    requires RectsOf(want, last, cw, ch, full, rects, ch)
    ensures Within(rects, cw, 0, ch)
  {
  }

  // ----------------------------------------------------------------- the client

  /** The screen a client shows for the server's picture of it. */
  function Image(fmt: PixFmt, want: seq<int>): (r: seq<Sent>)
    ensures |r| == |want|
  {
    seq(|want|, i requires 0 <= i < |want| => Sent(fmt, want[i]))
  }

  function ClientPixel(raw: RawRect, old_: Sent, x: int, y: int): Sent {
    var i, j := x - raw.r.x, y - raw.r.y;
    if Inside(raw.r, x, y) && 0 <= j < |raw.rows| && 0 <= i < |raw.rows[j]| then raw.rows[j][i] else old_
  }

  function ApplyRect(screen: seq<Sent>, cw: int, raw: RawRect): (r: seq<Sent>)
    requires cw > 0
    ensures |r| == |screen|
  {
    seq(|screen|, i requires 0 <= i < |screen| => ClientPixel(raw, screen[i], i % cw, i / cw))
  }

  function ApplyRects(screen: seq<Sent>, cw: int, raws: seq<RawRect>): (r: seq<Sent>)
    requires cw > 0
    ensures |r| == |screen|
    decreases |raws|
  {
    if raws == [] then screen else ApplyRects(ApplyRect(screen, cw, raws[0]), cw, raws[1..])
  }

  /** What a client shows once it has read as many rectangles as the header says; DesktopSize gives it a new
      screen, whatever that holds. It takes any rectangles left over for messages. */
  function Receive(screen: seq<Sent>, blank: seq<Sent>, cw: int, m: Message): seq<Sent>
    requires cw > 0
  {
    if m.count <= 0 then screen
    else
      var k := m.count - (if m.resize then 1 else 0);
      ApplyRects(if m.resize then blank else screen, cw, if 0 <= k <= |m.rects| then m.rects[..k] else m.rects)
  }

  lemma {:induction false} AppliedAt(screen: seq<Sent>, cw: int, ch: int, raws: seq<RawRect>, want: seq<int>, fmt: PixFmt, i: int)
    requires cw > 0 && |screen| == |want| == cw * ch && 0 <= i < |screen|
    requires Copies(raws, want, cw, fmt) && Within(Shapes(raws), cw, 0, ch)
    ensures ApplyRects(screen, cw, raws)[i] ==
      if Covered(Shapes(raws), i % cw, i / cw) then Sent(fmt, want[i]) else screen[i]
    decreases |raws|
  {
    hide CopyOf, Inside, ClientPixel;
    if raws != [] {
      var s' := ApplyRect(screen, cw, raws[0]);
      FirstCovered(raws, i % cw, i / cw);
      RestWithin(raws, cw, ch);
      AppliedAt(s', cw, ch, raws[1..], want, fmt, i);
      OneApplied(screen[i], cw, ch, raws[0], want, fmt, i);
    }
  }

  lemma OneApplied(old_: Sent, cw: int, ch: int, raw: RawRect, want: seq<int>, fmt: PixFmt, i: int)
    requires cw > 0 && |want| == cw * ch && 0 <= i < |want| && CopyOf(raw, want, cw, fmt)
    ensures ClientPixel(raw, old_, i % cw, i / cw) == if Inside(raw.r, i % cw, i / cw) then Sent(fmt, want[i]) else old_
  {
    hide Idx;
    IdxOf(cw, ch, i);
    var x, y := i % cw, i / cw;
    if Inside(raw.r, x, y) {
      assert RowCopy(raw.rows[y - raw.r.y], want, cw, fmt, raw.r, raw.r.y + (y - raw.r.y));
    }
  }

  lemma FirstCovered(raws: seq<RawRect>, x: int, y: int)
    requires raws != []
    ensures Covered(Shapes(raws), x, y) <==> Inside(raws[0].r, x, y) || Covered(Shapes(raws[1..]), x, y)
  {
    hide Inside;
    assert Shapes(raws) == [raws[0].r] + Shapes(raws[1..]);
    CoveredAppend([raws[0].r], Shapes(raws[1..]), x, y);
    assert Covered([raws[0].r], x, y) <==> Inside(raws[0].r, x, y) by {
      if Inside(raws[0].r, x, y) { assert Inside([raws[0].r][0], x, y); }
    }
  }

  lemma RestWithin(raws: seq<RawRect>, cw: int, ch: int)
    requires raws != [] && Within(Shapes(raws), cw, 0, ch)
    ensures Within(Shapes(raws[1..]), cw, 0, ch)
  {
    assert forall i :: 0 <= i < |raws| - 1 ==> Shapes(raws[1..])[i] == Shapes(raws)[i + 1];
  }

  /** The update shows the client exactly the wanted screen. */
  lemma UpdateShown(m: Message, want: seq<int>, last: seq<int>, cw: int, ch: int, fmt: PixFmt, full: bool, resize: bool,
                    screen: seq<Sent>, blank: seq<Sent>)
    requires ValidSize(cw, ch) && |want| == |last| == cw * ch && IsUpdate(m, want, last, cw, ch, fmt, full, resize)
    requires resize ==> full && |blank| == |want|
    requires !resize ==> |screen| == |want|
    requires !full ==> screen == Image(fmt, last)
    requires |m.rects| + (if resize then 1 else 0) <= 0xFFFF
    ensures Receive(screen, blank, cw, m) == Image(fmt, want)
  {
    hide RectsOf, Copies, Tiles, RowMax;
    var base := if resize then blank else screen;
    ReceivesAll(m, screen, blank, cw);
    if m.count > 0 {
      forall i | 0 <= i < |want| ensures ApplyRects(base, cw, m.rects)[i] == Sent(fmt, want[i]) {
        PixelShown(m, want, last, cw, ch, fmt, full, resize, base, i);
      }
    } else {
      forall i | 0 <= i < |want| ensures ApplyRects(screen, cw, m.rects)[i] == Sent(fmt, want[i]) {
        PixelShown(m, want, last, cw, ch, fmt, full, resize, base, i);
      }
    }
  }

  lemma ReceivesAll(m: Message, screen: seq<Sent>, blank: seq<Sent>, cw: int)
    requires cw > 0 && m.count == |m.rects| + (if m.resize then 1 else 0)
    ensures Receive(screen, blank, cw, m) == ApplyRects(if m.resize then blank else screen, cw, m.rects)
  {
    assert m.rects[..|m.rects|] == m.rects;
  }

  lemma PixelShown(m: Message, want: seq<int>, last: seq<int>, cw: int, ch: int, fmt: PixFmt, full: bool, resize: bool,
                   base: seq<Sent>, i: int)
    requires ValidSize(cw, ch) && |want| == |last| == |base| == cw * ch && IsUpdate(m, want, last, cw, ch, fmt, full, resize)
    requires 0 <= i < |want| && (!full ==> base[i] == Sent(fmt, last[i]))
    ensures ApplyRects(base, cw, m.rects)[i] == Sent(fmt, want[i])
  {
    hide Idx, Copies, Tiles, RowMax, Within, Disjoint, EachDiffers, Shapes, Covered;
    IdxOf(cw, ch, i);
    AppliedAt(base, cw, ch, m.rects, want, fmt, i);
    var x, y := i % cw, i / cw;
    if !Covered(Shapes(m.rects), x, y) {
      assert !full && !TileDiffers(want, last, cw, ch, x / TILE, y / TILE);
      assert InTile(cw, ch, x / TILE, y / TILE, x, y);
    }
  }

  /** A count that does not fit 16 bits leaves the client with a stale last rectangle: the update is
      right exactly when it fits. */
  lemma CountMustFit(m: Message, want: seq<int>, last: seq<int>, cw: int, ch: int, fmt: PixFmt, full: bool, resize: bool,
                     screen: seq<Sent>, blank: seq<Sent>)
    requires ValidSize(cw, ch) && |want| == |last| == cw * ch && IsUpdate(m, want, last, cw, ch, fmt, full, resize)
    requires resize ==> full && |blank| == |want|
    requires !resize ==> |screen| == |want|
    requires !full ==> screen == Image(fmt, last)
    ensures Receive(screen, blank, cw, m) == Image(fmt, want) <==> |m.rects| + (if resize then 1 else 0) <= 0xFFFF
  {
    hide RectsOf, Copies;
    if |m.rects| + (if resize then 1 else 0) <= 0xFFFF {
      UpdateShown(m, want, last, cw, ch, fmt, full, resize, screen, blank);
    } else {
      FullFits(m, want, last, cw, ch, fmt, full, resize);
      LastRectMissing(m, want, last, cw, ch, fmt, screen, blank);
    }
  }

  /** A full update always fits: it has one rectangle per tile row. */
  lemma FullFits(m: Message, want: seq<int>, last: seq<int>, cw: int, ch: int, fmt: PixFmt, full: bool, resize: bool)
    requires ValidSize(cw, ch) && IsUpdate(m, want, last, cw, ch, fmt, full, resize)
    ensures full ==> |m.rects| <= 4096
  {
    hide RectsOf, Copies;
  }

  lemma LastRectMissing(m: Message, want: seq<int>, last: seq<int>, cw: int, ch: int, fmt: PixFmt,
                        screen: seq<Sent>, blank: seq<Sent>)
    requires ValidSize(cw, ch) && |want| == |last| == cw * ch && IsUpdate(m, want, last, cw, ch, fmt, false, false)
    requires screen == Image(fmt, last) && |m.rects| > 0xFFFF
    ensures Receive(screen, blank, cw, m) != Image(fmt, want)
  {
    hide Copies, Tiles, RowMax, Within, CoversDirty, Disjoint, Pix, Idx;
    var n := |m.rects|;
    assert m.count < n;
    assert RectDiffers(want, last, cw, ch, Shapes(m.rects)[n - 1]);
    var x, y :| OnScreen(cw, ch, x, y) && Inside(Shapes(m.rects)[n - 1], x, y) && Pix(want, cw, x, y) != Pix(last, cw, x, y);
    PixelAt(want, cw, ch, x, y);
    PixelAt(last, cw, ch, x, y);
    var i := Idx(cw, x, y);
    FirstOnesMiss(m.rects, want, cw, ch, fmt, m.count, x, y);
    AppliedAt(screen, cw, ch, m.rects[..m.count], want, fmt, i);
    assert Receive(screen, blank, cw, m)[i] == Sent(fmt, last[i]) by {
      if m.count == 0 { assert m.rects[..0] == []; }
    }
  }

  lemma PixelAt(s: seq<int>, cw: int, ch: int, x: int, y: int)
    requires OnScreen(cw, ch, x, y) && |s| == cw * ch
    ensures 0 <= Idx(cw, x, y) < |s| && Pix(s, cw, x, y) == s[Idx(cw, x, y)]
    ensures Idx(cw, x, y) % cw == x && Idx(cw, x, y) / cw == y
  {
    IdxRange(cw, ch, x, y);
    IdxDivMod(cw, x, y);
  }

  lemma FirstOnesMiss(raws: seq<RawRect>, want: seq<int>, cw: int, ch: int, fmt: PixFmt, k: nat, x: int, y: int)
    requires Disjoint(Shapes(raws)) && Within(Shapes(raws), cw, 0, ch) && Copies(raws, want, cw, fmt) && k < |raws|
    requires Inside(Shapes(raws)[|raws| - 1], x, y)
    ensures !Covered(Shapes(raws[..k]), x, y) && Within(Shapes(raws[..k]), cw, 0, ch) && Copies(raws[..k], want, cw, fmt)
  {
    hide Inside, CopyOf;
    assert forall i :: 0 <= i < k ==> Shapes(raws[..k])[i] == Shapes(raws)[i];
  }

  /** Any screen of up to 2048 by 16384 pixels, say, always fits: half its tiles are fewer than 65536. */
  lemma SmallScreensFit(m: Message, want: seq<int>, last: seq<int>, cw: int, ch: int, fmt: PixFmt, full: bool, resize: bool)
    requires ValidSize(cw, ch) && IsUpdate(m, want, last, cw, ch, fmt, full, resize)
    requires resize ==> full
    requires Tiles(ch) * ((Tiles(cw) + 1) / 2) <= 0xFFFF
    ensures |m.rects| + (if resize then 1 else 0) <= 0xFFFF
  {
    hide RectsOf, Copies;
    if full { FullFits(m, want, last, cw, ch, fmt, full, resize); }
  }
}
