/** A screen whose incremental update needs more rectangles than its 16-bit count can say. */
module VncCount {
  import opened Arithmetic
  import opened VncUpdate

  const BIG_W := 8192
  const BIG_H := 4112
  const TILES_W := 512
  const TILES_H := 257

  /** Every second tile, in rows and in columns. */
  function Shade(tx: int, ty: int): int { (tx + ty) % 2 }

  function Chequered(): (s: seq<int>)
    ensures |s| == BIG_W * BIG_H
  {
    seq(BIG_W * BIG_H, i => Shade(i % BIG_W / TILE, i / BIG_W / TILE))
  }

  function Black(): (s: seq<int>)
    ensures |s| == BIG_W * BIG_H
  {
    seq(BIG_W * BIG_H, i => 0)
  }

  lemma ChequerPix(x: int, y: int)
    requires OnScreen(BIG_W, BIG_H, x, y)
    ensures Pix(Chequered(), BIG_W, x, y) == Shade(x / TILE, y / TILE) && Pix(Black(), BIG_W, x, y) == 0
  {
    hide Shade;
    IdxRange(BIG_W, BIG_H, x, y);
    IdxDivMod(BIG_W, x, y);
  }

  predicate OnGrid(tx: int, ty: int) { 0 <= tx < TILES_W && 0 <= ty < TILES_H }

  /** The first pixel of a tile is sent if and only if the tile is a coloured one. */
  lemma CornerSent(rects: seq<Rect>, tx: int, ty: int)
    requires OnGrid(tx, ty) && RectsOf(Chequered(), Black(), BIG_W, BIG_H, false, rects, BIG_H)
    ensures Covered(rects, tx * TILE, ty * TILE) <==> Shade(tx, ty) == 1
  {
    hide Covered, Chequered, Black, Shade, Pix, Within, Disjoint, EachDiffers;
    var x, y := tx * TILE, ty * TILE;
    assert OnScreen(BIG_W, BIG_H, x, y) && InTile(BIG_W, BIG_H, tx, ty, x, y);
    ShadeIs(tx, ty);
    forall u, v | InTile(BIG_W, BIG_H, tx, ty, u, v)
      ensures Pix(Chequered(), BIG_W, u, v) == Shade(tx, ty) && Pix(Black(), BIG_W, u, v) == 0
    {
      ChequerPix(u, v);
    }
    assert TileDiffers(Chequered(), Black(), BIG_W, BIG_H, tx, ty) <==> Shade(tx, ty) == 1;
  }

  lemma ShadeIs(tx: int, ty: int)
    ensures Shade(tx, ty) == 0 || Shade(tx, ty) == 1
    ensures Shade(tx, ty) == 1 ==> Shade(tx + 1, ty) == 0 && Shade(tx, ty + 1) == 0
  {
  }

  predicate Holds(r: Rect, tx: int, ty: int) { Inside(r, tx * TILE, ty * TILE) }

  /** No rectangle holds two coloured tiles: it would hold the plain one between them. */
  lemma OneTileEach(rects: seq<Rect>, i: nat, tx: int, ty: int, ux: int, uy: int)
    requires RectsOf(Chequered(), Black(), BIG_W, BIG_H, false, rects, BIG_H) && i < |rects|
    requires OnGrid(tx, ty) && OnGrid(ux, uy) && Shade(tx, ty) == 1 && Shade(ux, uy) == 1
    requires Holds(rects[i], tx, ty) && Holds(rects[i], ux, uy)
    ensures tx == ux && ty == uy
  {
    hide RectsOf, Chequered, Black, Shade;
    if tx < ux {
      NotThisOne(rects, i, tx + 1, ty, tx, ty);
    } else if ux < tx {
      NotThisOne(rects, i, ux + 1, uy, ux, uy);
    } else if ty < uy {
      NotThisOne(rects, i, tx, ty + 1, tx, ty);
    } else if uy < ty {
      NotThisOne(rects, i, ux, uy + 1, ux, uy);
    }
  }

  lemma NotThisOne(rects: seq<Rect>, i: nat, tx: int, ty: int, px: int, py: int)
    requires RectsOf(Chequered(), Black(), BIG_W, BIG_H, false, rects, BIG_H) && i < |rects|
    requires OnGrid(tx, ty) && Shade(px, py) == 1 && ((tx == px + 1 && ty == py) || (tx == px && ty == py + 1))
    ensures !Holds(rects[i], tx, ty)
  {
    hide RectsOf, Chequered, Black, Shade;
    ShadeIs(px, py);
    CornerSent(rects, tx, ty);
  }

  /** The k-th of the coloured tiles, half of all. */
  const PER_ROW := 256
  const COLOURED := 65792

  function TileX(k: int): int { 2 * (k % PER_ROW) + (1 - k / PER_ROW % 2) }
  function TileY(k: int): int { k / PER_ROW }

  lemma ColouredTile(k: int)
    requires 0 <= k < COLOURED
    ensures OnGrid(TileX(k), TileY(k)) && Shade(TileX(k), TileY(k)) == 1
  {
    hide Shade;
    var ty, c := k / PER_ROW, k % PER_ROW;
    assert 0 <= ty < TILES_H && 0 <= c < PER_ROW;
    Coloured(c, ty);
  }

  lemma Coloured(c: int, ty: int)
    ensures Shade(2 * c + (1 - ty % 2), ty) == 1 && 0 <= 1 - ty % 2 <= 1
  {
    DivUnique(2 * c + (1 - ty % 2) + ty, 2, c + ty / 2, 1);
  }

  lemma TilesDiffer(k: int, l: int)
    requires TileX(k) == TileX(l) && TileY(k) == TileY(l)
    ensures k == l
  {
  }

  /** For each of the first n coloured tiles, the rectangle that holds it; no two the same. */
  lemma {:induction false} Holders(rects: seq<Rect>, n: nat) returns (w: seq<int>)
    requires n <= COLOURED && RectsOf(Chequered(), Black(), BIG_W, BIG_H, false, rects, BIG_H)
    ensures |w| == n && forall k :: 0 <= k < n ==> 0 <= w[k] < |rects| && Holds(rects[w[k]], TileX(k), TileY(k))
    ensures forall k, l :: 0 <= k < l < n ==> w[k] != w[l]
    decreases n
  {
    hide RectsOf, Chequered, Black, Shade, TileX, TileY, OnGrid;
    w := [];
    if n > 0 {
      var v := Holders(rects, n - 1);
      ColouredTile(n - 1);
      CornerSent(rects, TileX(n - 1), TileY(n - 1));
      var i :| 0 <= i < |rects| && Holds(rects[i], TileX(n - 1), TileY(n - 1));
      w := v + [i];
      forall k | 0 <= k < n - 1 ensures v[k] != i {
        if v[k] == i {
          ColouredTile(k);
          OneTileEach(rects, i, TileX(k), TileY(k), TileX(n - 1), TileY(n - 1));
          TilesDiffer(k, n - 1);
        }
      }
    }
  }

  /** Going from a black screen of 8192 by 4112 pixels to a chequered one leaves the viewer with the wrong
      screen, however its rectangles are cut. */
  lemma CountOverflows(m: Message, fmt: PixFmt, blank: seq<Sent>)
    requires IsUpdate(m, Chequered(), Black(), BIG_W, BIG_H, fmt, false, false)
    ensures ValidSize(BIG_W, BIG_H) && |m.rects| > 0xFFFF
    ensures Receive(Image(fmt, Black()), blank, BIG_W, m) != Image(fmt, Chequered())
  {
    hide RectsOf, Copies, Chequered, Black, Receive, Holds, Tiles, RowMax;
    var w := Holders(Shapes(m.rects), COLOURED);
    DistinctBounded(w, |m.rects|);
    CountMustFit(m, Chequered(), Black(), BIG_W, BIG_H, fmt, false, false, Image(fmt, Black()), blank);
  }
}
