/** Pixels on the wire (core/src/vnc.c, put_pixel) and the viewer that reads them. */
module VncPixel {
  import opened Arithmetic
  import opened VncUpdate

  type Byte = n: int | 0 <= n < 256

  const WORD := 0x1_0000_0000

  function Pow2(n: nat): (p: nat)
    ensures p > 0
  {
    if n == 0 then 1 else 2 * Pow2(n - 1)
  }

  /** Bitwise or. */
  function Or(a: nat, b: nat): nat
    decreases a + b
  {
    if a == 0 && b == 0 then 0 else (if a % 2 == 1 || b % 2 == 1 then 1 else 0) + 2 * Or(a / 2, b / 2)
  }

  // ------------------------------------------------------------------ the server

  datatype Colour = Colour(r: nat, g: nat, b: nat)

  function Channels(argb: nat): Colour { Colour(argb / 0x10000 % 256, argb / 0x100 % 256, argb % 256) }

  /** A channel value of 0 to 255, rounded to 0 to max. */
  function Scale(c: nat, max: nat): nat { (c * max + 127) / 255 }

  /** Alpha, red, green and blue are the four bytes of a pixel, alpha the highest. */
  lemma ChannelBytes(a: nat, r: nat, g: nat, b: nat)
    requires r < 256 && g < 256 && b < 256
    ensures Channels(a * 0x100_0000 + r * 0x1_0000 + g * 0x100 + b) == Colour(r, g, b)
  {
    var v := a * 0x100_0000 + r * 0x1_0000 + g * 0x100 + b;
    DivUnique(v, 0x1_0000, a * 256 + r, g * 256 + b);
    DivUnique(v, 0x100, (a * 256 + r) * 256 + g, b);
  }

  /** The scaled value is the whole number nearest to c * max / 255. */
  lemma ScaleRounds(c: nat, max: nat)
    ensures -127 <= 255 * Scale(c, max) - c * max <= 127
  {
  }

  function Scaled(f: PixFmt, argb: nat): Colour
    requires Plain(f)
  {
    var c := Channels(argb);
    Colour(Scale(c.r, f.rMax), Scale(c.g, f.gMax), Scale(c.b, f.bMax))
  }

  function Shl(v: nat, n: nat): nat { v * Pow2(n) % WORD }

  function Packed(f: PixFmt, argb: nat): nat
    requires Plain(f)
  {
    var c := Scaled(f, argb);
    Or(Or(Shl(c.r, f.rShift), Shl(c.g, f.gShift)), Shl(c.b, f.bShift))
  }

  /** A format as the server stores it; shifts of 32 and more have no meaning in C. */
  predicate Plain(f: PixFmt) {
    && (f.bytesPp == 1 || f.bytesPp == 2 || f.bytesPp == 4)
    && 0 <= f.rMax < 0x10000 && 0 <= f.gMax < 0x10000 && 0 <= f.bMax < 0x10000
    && 0 <= f.rShift < 32 && 0 <= f.gShift < 32 && 0 <= f.bShift < 32
  }

  function Quot(v: nat, n: nat): nat
    requires n > 0
  {
    v / n
  }

  function ByteOf(v: nat, i: nat): Byte { Quot(v, Pow2(8 * i)) % 256 }

  function Wire(f: PixFmt, argb: nat): (bs: seq<Byte>)
    requires Plain(f)
    ensures |bs| == f.bytesPp
  {
    BytesOf(Packed(f, argb), f.bytesPp, f.bigEndian)
  }

  /** The n low bytes of v. */
  function BytesOf(v: nat, n: nat, big: bool): (bs: seq<Byte>)
    ensures |bs| == n
  {
    seq(n, i requires 0 <= i < n => ByteOf(v, if big then n - 1 - i else i))
  }

  function RowBytes(f: PixFmt, src: seq<nat>): (bs: seq<Byte>)
    requires Plain(f)
    ensures |bs| == |src| * f.bytesPp
    decreases |src|
  {
    if src == [] then [] else RowBytes(f, src[..|src| - 1]) + Wire(f, src[|src| - 1])
  }

  method PutPixel(dst: array<Byte>, at: nat, f: PixFmt, argb: nat)
    requires Plain(f) && at + f.bytesPp <= dst.Length
    modifies dst
    ensures dst[..at] == old(dst[..at]) && dst[at..at + f.bytesPp] == Wire(f, argb)
    ensures dst[at + f.bytesPp..] == old(dst[at + f.bytesPp..])
  {
    hide Packed, ByteOf;
    var v := Packed(f, argb);
    for i := 0 to f.bytesPp
      invariant dst[..at] == old(dst[..at])
      invariant forall k :: 0 <= k < i ==> dst[at + k] == Wire(f, argb)[k]
      invariant dst[at + f.bytesPp..] == old(dst[at + f.bytesPp..])
    {
      dst[at + i] := ByteOf(v, if f.bigEndian then f.bytesPp - 1 - i else i);
    }
  }

  method PutRow(row: array<Byte>, f: PixFmt, src: seq<nat>)
    requires Plain(f) && |src| * f.bytesPp <= row.Length
    modifies row
    ensures row[..|src| * f.bytesPp] == RowBytes(f, src)
  {
    hide Wire;
    for x := 0 to |src|
      invariant x * f.bytesPp <= row.Length && row[..x * f.bytesPp] == RowBytes(f, src[..x])
    {
      assert src[..x + 1][..x] == src[..x];
      Room(x + 1, |src|, f.bytesPp);
      PutPixel(row, x * f.bytesPp, f, src[x]);
    }
    assert src[..|src|] == src;
  }

  lemma Room(x: nat, n: nat, k: nat)
    requires x <= n
    ensures x * k <= n * k && (x > 0 ==> (x - 1) * k + k == x * k)
  {
  }

  // ------------------------------------------------------------------ the viewer

  function LittleValue(bs: seq<Byte>): nat {
    if bs == [] then 0 else bs[0] + 256 * LittleValue(bs[1..])
  }

  function BigValue(bs: seq<Byte>): nat {
    if bs == [] then 0 else bs[|bs| - 1] + 256 * BigValue(bs[..|bs| - 1])
  }

  function Shr(v: nat, n: nat): nat { Quot(v, Pow2(n)) }

  function Field(v: nat, shift: nat, bits: nat): nat { Shr(v, shift) % Pow2(bits) }

  /** Bits per channel. */
  datatype Widths = Widths(r: nat, g: nat, b: nat)

  predicate Apart(s: nat, k: nat, t: nat, j: nat) { s + k <= t || t + j <= s }

  /** Channels are bit fields of their own within the pixel, as section 7.4 of RFC 6143 has them. */
  predicate Sound(f: PixFmt, w: Widths) {
    && Plain(f) && f.rMax + 1 == Pow2(w.r) && f.gMax + 1 == Pow2(w.g) && f.bMax + 1 == Pow2(w.b)
    && f.rShift + w.r <= 8 * f.bytesPp && f.gShift + w.g <= 8 * f.bytesPp && f.bShift + w.b <= 8 * f.bytesPp
    && Apart(f.rShift, w.r, f.gShift, w.g) && Apart(f.rShift, w.r, f.bShift, w.b) && Apart(f.gShift, w.g, f.bShift, w.b)
  }

  function View(f: PixFmt, w: Widths, bs: seq<Byte>): Colour
    requires Plain(f)
  {
    var v := if f.bigEndian then BigValue(bs) else LittleValue(bs);
    Colour(Field(v, f.rShift, w.r), Field(v, f.gShift, w.g), Field(v, f.bShift, w.b))
  }

  function ViewRow(f: PixFmt, w: Widths, bs: seq<Byte>, n: nat): seq<Colour>
    requires Plain(f) && |bs| == n * f.bytesPp
    decreases n
  {
    if n == 0 then []
    else
      Room(n, n, f.bytesPp);
      ViewRow(f, w, bs[..(n - 1) * f.bytesPp], n - 1) + [View(f, w, bs[(n - 1) * f.bytesPp..])]
  }

  // ------------------------------------------------------------------ arithmetic

  lemma PowZero()
    ensures Pow2(0) == 1
  {
  }

  lemma PowStep(n: nat)
    requires n > 0
    ensures Pow2(n) == 2 * Pow2(n - 1)
  {
  }

  lemma {:induction false} PowAdd(a: nat, b: nat)
    ensures Pow2(a + b) == Pow2(a) * Pow2(b)
    decreases a
  {
    hide Pow2;
    if a == 0 {
      PowZero();
    } else {
      PowAdd(a - 1, b);
      PowStep(a);
      PowStep(a + b);
      Twice(Pow2(a - 1), Pow2(b));
    }
  }

  lemma Twice(x: nat, y: nat)
    ensures 2 * (x * y) == 2 * x * y
  {
  }

  lemma Split(v: nat, n: nat)
    requires n > 0
    ensures v == v / n * n + v % n && 0 <= v % n < n
  {
  }

  lemma Regroup(a: nat, b: nat, n: nat, m: nat, r: nat)
    ensures (a * n + b) * m + r == a * (m * n) + (b * m + r)
  {
  }

  lemma BelowProduct(b: nat, n: nat, m: nat, r: nat)
    requires b < n && r < m
    ensures 0 <= b * m + r < m * n
  {
    assert (b + 1) * m <= n * m;
  }

  /** Dividing twice is dividing by the product, and so for remainders. */
  lemma DivMod(v: nat, m: nat, n: nat)
    requires m > 0 && n > 0
    ensures m * n > 0 && v / m >= 0 && v / m / n == v / (m * n) && v % (m * n) == v % m + v / m % n * m
  {
    var q, r := v / m, v % m;
    Split(v, m);
    SplitBounds(v, m);
    var a, b := q / n, q % n;
    Split(q, n);
    SplitBounds(q, n);
    Regroup(a, b, n, m, r);
    BelowProduct(b, n, m, r);
    DivUnique(v, m * n, a, b * m + r);
  }

  lemma SplitBounds(v: nat, n: nat)
    requires n > 0
    ensures v / n >= 0
  {
  }

  /** The low part of a remainder, and what is above it. */
  lemma QuotRem(v: nat, m: nat, n: nat)
    requires m > 0 && n > 0
    ensures m * n > 0 && v % (m * n) / m == v / m % n && v % (m * n) % m == v % m
  {
    DivMod(v, m, n);
    Split(v, m);
    DivUnique(v % (m * n), m, v / m % n, v % m);
  }

  lemma OrHalf(a: nat, b: nat)
    ensures Or(a, b) / 2 == Or(a / 2, b / 2) && Or(a, b) % 2 == if a % 2 == 1 || b % 2 == 1 then 1 else 0
  {
  }

  lemma HalfShift(v: nat, s: nat)
    requires s > 0
    ensures Shr(v / 2, s - 1) == Shr(v, s)
  {
    hide Pow2;
    PowStep(s);
    DivMod(v, 2, Pow2(s - 1));
  }

  lemma NoShift(v: nat)
    ensures Shr(v, 0) == v
  {
  }

  lemma {:induction false} OrShifted(a: nat, b: nat, s: nat)
    ensures Shr(Or(a, b), s) == Or(Shr(a, s), Shr(b, s))
    decreases s
  {
    hide Or, Shr;
    if s == 0 {
      NoShift(a);
      NoShift(b);
      NoShift(Or(a, b));
    } else {
      OrHalf(a, b);
      OrShifted(a / 2, b / 2, s - 1);
      HalfShift(Or(a, b), s);
      HalfShift(a, s);
      HalfShift(b, s);
    }
  }

  lemma {:induction false} OrLow(a: nat, b: nat, k: nat)
    ensures Or(a, b) % Pow2(k) == Or(a % Pow2(k), b % Pow2(k))
    decreases k
  {
    if k > 0 {
      OrHalf(a, b);
      OrLow(a / 2, b / 2, k - 1);
      DivMod(Or(a, b), 2, Pow2(k - 1));
      DivMod(a, 2, Pow2(k - 1));
      DivMod(b, 2, Pow2(k - 1));
      var x, y := a % Pow2(k), b % Pow2(k);
      assert x == a % 2 + a / 2 % Pow2(k - 1) * 2 && y == b % 2 + b / 2 % Pow2(k - 1) * 2;
      OrHalf(x, y);
      DivUnique(x, 2, a / 2 % Pow2(k - 1), a % 2);
      DivUnique(y, 2, b / 2 % Pow2(k - 1), b % 2);
      Split(Or(x, y), 2);
    }
  }

  lemma {:induction false} OrZero(a: nat)
    ensures Or(a, 0) == a && Or(0, a) == a
    decreases a
  {
    if a > 0 { OrZero(a / 2); }
  }

  /** Fields of an or are the or of the fields. */
  lemma OrField(a: nat, b: nat, s: nat, k: nat)
    ensures Field(Or(a, b), s, k) == Or(Field(a, s, k), Field(b, s, k))
  {
    hide Or, Pow2, Shr;
    OrShifted(a, b, s);
    OrLow(Shr(a, s), Shr(b, s), k);
  }

  /** A value of j bits shifted by t: whole in its own field, nothing in one apart from it. */
  lemma ShiftedField(x: nat, t: nat, j: nat, s: nat, k: nat)
    requires x < Pow2(j) && t + j <= 32
    ensures t == s && j == k ==> Field(Shl(x, t), s, k) == x
    ensures Apart(s, k, t, j) ==> Field(Shl(x, t), s, k) == 0
  {
    hide Pow2, Field, Shl;
    NoOverflow(x, t, j);
    if t == s && j == k { OwnField(x, s, k); }
    if s + k <= t { FieldBelow(x, t, s, k); }
    if t + j <= s {
      PowUp(t + j, s);
      FieldAbove(x * Pow2(t), s, k);
    }
  }

  lemma OwnField(x: nat, s: nat, k: nat)
    requires x < Pow2(k)
    ensures Field(x * Pow2(s), s, k) == x
  {
    hide Pow2;
    DivUnique(x * Pow2(s), Pow2(s), x, 0);
    DivUnique(x, Pow2(k), 0, x);
  }

  lemma FieldBelow(x: nat, t: nat, s: nat, k: nat)
    requires s + k <= t
    ensures Field(x * Pow2(t), s, k) == 0
  {
    hide Pow2;
    PowAdd(t - s, s);
    PowAdd(t - s - k, k);
    Multiple(x, Pow2(t - s - k), Pow2(k), Pow2(s));
  }

  lemma Multiple(x: nat, r: nat, q: nat, p: nat)
    requires q > 0 && p > 0
    ensures x * (r * q * p) / p % q == 0
  {
    var y := x * r * q;
    assert x * (r * q * p) == y * p;
    DivUnique(y * p, p, y, 0);
    DivUnique(y, q, x * r, 0);
  }

  lemma FieldAbove(v: nat, s: nat, k: nat)
    requires v < Pow2(s)
    ensures Field(v, s, k) == 0
  {
    hide Pow2;
    DivUnique(v, Pow2(s), 0, v);
    DivUnique(0, Pow2(k), 0, 0);
  }

  lemma PowUp(a: nat, b: nat)
    requires a <= b
    ensures Pow2(a) <= Pow2(b)
  {
    PowAdd(b - a, a);
    assert Pow2(b - a) * Pow2(a) >= Pow2(a);
  }

  lemma NoOverflow(x: nat, t: nat, j: nat)
    requires x < Pow2(j) && t + j <= 32
    ensures Shl(x, t) == x * Pow2(t) < Pow2(t + j)
  {
    hide Pow2;
    PowAdd(j, t);
    assert x * Pow2(t) < Pow2(j) * Pow2(t);
    PowUp(t + j, 32);
    Pow32();
  }

  lemma Pow32()
    ensures Pow2(32) == WORD && Pow2(8) == 256
  {
    hide Pow2;
    Pow4();
    PowAdd(4, 4);
    PowAdd(8, 8);
    PowAdd(16, 16);
  }

  lemma Pow4()
    ensures Pow2(4) == 16
  {
  }

  lemma ScaleFits(c: nat, max: nat)
    requires c < 256
    ensures Scale(c, max) <= max && Scale(c, 255) == c
  {
    assert c * max <= 255 * max;
  }

  // ------------------------------------------------------------- bytes and back

  lemma {:induction false} LittleBytes(v: nat, n: nat, bs: seq<Byte>)
    requires |bs| == n && forall i :: 0 <= i < n ==> bs[i] == ByteOf(v, i)
    ensures LittleValue(bs) == v % Pow2(8 * n)
    decreases n
  {
    hide Pow2, ByteOf;
    PowZero();
    if n > 0 {
      forall i | 0 <= i < n - 1 ensures bs[1..][i] == ByteOf(v / 256, i) { NextByte(v, i); }
      LittleBytes(v / 256, n - 1, bs[1..]);
      LastByte(v, n);
    }
  }

  lemma {:induction false} BigBytes(v: nat, n: nat, bs: seq<Byte>)
    requires |bs| == n && forall i :: 0 <= i < n ==> bs[i] == ByteOf(v, n - 1 - i)
    ensures BigValue(bs) == v % Pow2(8 * n)
    decreases n
  {
    hide Pow2, ByteOf;
    PowZero();
    if n > 0 {
      var rest := bs[..n - 1];
      forall i | 0 <= i < n - 1 ensures rest[i] == ByteOf(v / 256, n - 2 - i) { NextByte(v, n - 2 - i); }
      BigBytes(v / 256, n - 1, rest);
      LastByte(v, n);
    }
  }

  lemma NextByte(v: nat, i: nat)
    ensures ByteOf(v, i + 1) == ByteOf(v / 256, i)
  {
    hide Pow2;
    Pow32();
    PowAdd(8, 8 * i);
    DivMod(v, 256, Pow2(8 * i));
  }

  lemma LastByte(v: nat, n: nat)
    requires n > 0
    ensures ByteOf(v, 0) == v % 256 && v % Pow2(8 * n) == v % 256 + 256 * (v / 256 % Pow2(8 * (n - 1)))
  {
    hide Pow2;
    Pow32();
    PowZero();
    PowAdd(8, 8 * (n - 1));
    DivMod(v, 256, Pow2(8 * (n - 1)));
  }

  /** Bytes above a field do not matter to it. */
  lemma FieldLow(v: nat, s: nat, k: nat, n: nat)
    requires s + k <= n
    ensures Field(v % Pow2(n), s, k) == Field(v, s, k)
  {
    hide Pow2;
    PowAdd(s, n - s);
    PowAdd(k, n - s - k);
    QuotRem(v, Pow2(s), Pow2(n - s));
    QuotRem(Quot(v, Pow2(s)), Pow2(k), Pow2(n - s - k));
  }

  // ----------------------------------------------------------------- the pixels

  lemma Received(f: PixFmt, argb: nat)
    requires Plain(f)
    ensures var bs := Wire(f, argb);
      (if f.bigEndian then BigValue(bs) else LittleValue(bs)) == Packed(f, argb) % Pow2(8 * f.bytesPp)
  {
    hide Packed, ByteOf, Pow2, BigValue, LittleValue;
    if f.bigEndian { BigBytes(Packed(f, argb), f.bytesPp, Wire(f, argb)); } else { LittleBytes(Packed(f, argb), f.bytesPp, Wire(f, argb)); }
  }

  /** One field of three shifted into their places. */
  lemma OneOfThree(x: nat, y: nat, z: nat, sx: nat, kx: nat, sy: nat, ky: nat, sz: nat, kz: nat)
    requires x < Pow2(kx) && y < Pow2(ky) && z < Pow2(kz) && sx + kx <= 32 && sy + ky <= 32 && sz + kz <= 32
    requires Apart(sx, kx, sy, ky) && Apart(sx, kx, sz, kz) && Apart(sy, ky, sz, kz)
    ensures var v := Or(Or(Shl(x, sx), Shl(y, sy)), Shl(z, sz));
      Field(v, sx, kx) == x && Field(v, sy, ky) == y && Field(v, sz, kz) == z
  {
    hide Pow2, Shl, Or, Field;
    var a, b, c := Shl(x, sx), Shl(y, sy), Shl(z, sz);
    FieldsOf(a, b, c, sx, kx);
    FieldsOf(a, b, c, sy, ky);
    FieldsOf(a, b, c, sz, kz);
    ShiftedField(x, sx, kx, sx, kx); ShiftedField(y, sy, ky, sx, kx); ShiftedField(z, sz, kz, sx, kx);
    ShiftedField(x, sx, kx, sy, ky); ShiftedField(y, sy, ky, sy, ky); ShiftedField(z, sz, kz, sy, ky);
    ShiftedField(x, sx, kx, sz, kz); ShiftedField(y, sy, ky, sz, kz); ShiftedField(z, sz, kz, sz, kz);
    OrZero(x);
    OrZero(y);
    OrZero(z);
    OrZero(0);
  }

  lemma FieldsOf(a: nat, b: nat, c: nat, s: nat, k: nat)
    ensures Field(Or(Or(a, b), c), s, k) == Or(Or(Field(a, s, k), Field(b, s, k)), Field(c, s, k))
  {
    hide Or, Field;
    OrField(Or(a, b), c, s, k);
    OrField(a, b, s, k);
  }

  /** In any format with fields of their own, a viewer reads back every channel, rounded to its width. */
  lemma PixelReadBack(f: PixFmt, w: Widths, argb: nat)
    requires Sound(f, w)
    ensures View(f, w, Wire(f, argb)) == Scaled(f, argb)
  {
    hide Pow2, Wire, BigValue, LittleValue, Field, Or, Shl, Scale;
    var c, n := Scaled(f, argb), 8 * f.bytesPp;
    ScaleFits(Channels(argb).r, f.rMax);
    ScaleFits(Channels(argb).g, f.gMax);
    ScaleFits(Channels(argb).b, f.bMax);
    OneOfThree(c.r, c.g, c.b, f.rShift, w.r, f.gShift, w.g, f.bShift, w.b);
    Received(f, argb);
    FieldLow(Packed(f, argb), f.rShift, w.r, n);
    FieldLow(Packed(f, argb), f.gShift, w.g, n);
    FieldLow(Packed(f, argb), f.bShift, w.b, n);
  }

  /** With eight bits a channel nothing is lost but the alpha byte. */
  lemma EightBitsExact(f: PixFmt, w: Widths, argb: nat)
    requires Sound(f, w) && f.rMax == f.gMax == f.bMax == 255
    ensures View(f, w, Wire(f, argb)) == Channels(argb)
  {
    hide View, Wire, Scale;
    PixelReadBack(f, w, argb);
    ScaleFits(Channels(argb).r, 255);
    ScaleFits(Channels(argb).g, 255);
    ScaleFits(Channels(argb).b, 255);
  }

  /** So for whole rows. */
  lemma {:induction false} RowReadBack(f: PixFmt, w: Widths, src: seq<nat>)
    requires Sound(f, w)
    ensures ViewRow(f, w, RowBytes(f, src), |src|) == seq(|src|, x requires 0 <= x < |src| => Scaled(f, src[x]))
    decreases |src|
  {
    hide View, Wire, Scaled;
    if src != [] {
      var n := |src| - 1;
      RowReadBack(f, w, src[..n]);
      PixelReadBack(f, w, src[n]);
      Room(n + 1, n + 1, f.bytesPp);
      var bs := RowBytes(f, src);
      assert bs[..n * f.bytesPp] == RowBytes(f, src[..n]) && bs[n * f.bytesPp..] == Wire(f, src[n]);
    }
  }

  /** The 32-bit values of a row, as put on the wire. */
  function Values(row: seq<Sent>): (vs: seq<nat>)
    requires forall x :: 0 <= x < |row| ==> row[x].argb >= 0
    ensures |vs| == |row|
  {
    seq(|row|, x requires 0 <= x < |row| => row[x].argb)
  }

  /** What a viewer reads from a row sent to it. */
  function Seen(f: PixFmt, w: Widths, row: seq<Sent>): seq<Colour>
    requires Plain(f) && forall x :: 0 <= x < |row| ==> row[x].argb >= 0
  {
    ViewRow(f, w, RowBytes(f, Values(row)), |row|)
  }

  lemma SeenIs(f: PixFmt, w: Widths, row: seq<Sent>)
    requires Sound(f, w) && forall x :: 0 <= x < |row| ==> row[x].argb >= 0
    ensures |Seen(f, w, row)| == |row| && forall x :: 0 <= x < |row| ==> Seen(f, w, row)[x] == Scaled(f, row[x].argb)
  {
    hide Scaled, ViewRow, RowBytes, Pow2;
    RowReadBack(f, w, Values(row));
  }

  predicate NonNegative(vs: seq<int>) { forall p :: 0 <= p < |vs| ==> vs[p] >= 0 }

  lemma RowValues(row: seq<Sent>, want: seq<int>, cw: int, fmt: PixFmt, r: Rect, y: int)
    requires RowCopy(row, want, cw, fmt, r, y) && NonNegative(want)
    ensures forall x :: 0 <= x < |row| ==> row[x].argb >= 0
  {
    hide Idx;
    forall x | 0 <= x < |row| ensures row[x].argb >= 0 { assert row[x] == Sent(fmt, Pix(want, cw, r.x + x, y)); }
  }

  /** From any row of an update, which holds the wanted pixels there: those, in the viewer's own colours. */
  lemma UpdateRowSeen(m: Message, want: seq<int>, last: seq<int>, cw: int, ch: int, fmt: PixFmt, full: bool, resize: bool,
                      w: Widths, i: nat, j: nat)
    requires IsUpdate(m, want, last, cw, ch, fmt, full, resize) && Sound(fmt, w) && NonNegative(want)
    requires i < |m.rects| && j < |m.rects[i].rows|
    ensures var r, row := m.rects[i].r, m.rects[i].rows[j];
      && RowCopy(row, want, cw, fmt, r, r.y + j) && (forall x :: 0 <= x < |row| ==> row[x].argb >= 0)
      && |Seen(fmt, w, row)| == |row| && forall x :: 0 <= x < |row| ==> Seen(fmt, w, row)[x] == Scaled(fmt, row[x].argb)
  {
    hide RectsOf, Tiles, RowMax, RowCopy, NonNegative, Scaled, Seen, Pow2;
    var raw, row := m.rects[i], m.rects[i].rows[j];
    assert CopyOf(raw, want, cw, fmt);
    RowValues(row, want, cw, fmt, raw.r, raw.r.y + j);
    SeenIs(fmt, w, row);
  }

  // ---------------------------------------------------------------- formats in use

  /** The server's own format, and those of 16 and 8 bits viewers ask for, are such formats, in either byte order. */
  lemma CommonFormats(big: bool)
    ensures Sound(PixFmt(4, big, 255, 255, 255, 16, 8, 0), Widths(8, 8, 8))
    ensures Sound(PixFmt(4, big, 255, 255, 255, 0, 8, 16), Widths(8, 8, 8))
    ensures Sound(PixFmt(2, big, 31, 63, 31, 11, 5, 0), Widths(5, 6, 5))
    ensures Sound(PixFmt(1, big, 7, 7, 3, 0, 3, 6), Widths(3, 3, 2))
  {
    hide Pow2;
    Powers();
  }

  lemma Powers()
    ensures Pow2(2) == 4 && Pow2(3) == 8 && Pow2(5) == 32 && Pow2(6) == 64 && Pow2(8) == 256
  {
    assert Pow2(0) == 1 && Pow2(1) == 2 && Pow2(2) == 4 && Pow2(3) == 8 && Pow2(4) == 16 && Pow2(5) == 32;
    assert Pow2(6) == 64 && Pow2(7) == 128;
  }
}
