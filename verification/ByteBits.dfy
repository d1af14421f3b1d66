/** Bits: those of a byte as arithmetic, what the bitwise operators and shifts do to them, and those of a word. */
module ByteBits {
  /** 2 to the power k. */
  function Weight(k: nat): (w: nat)
    ensures w > 0
  {
    match k
    case 0 => 1 case 1 => 2 case 2 => 4 case 3 => 8 case 4 => 16 case 5 => 32 case 6 => 64 case _ => 128
  }

  /** Bit k of a number, bit 0 the lowest. */
  predicate Bit(v: nat, k: nat) { v / Weight(k) % 2 == 1 }

  /** Bit n of a vector. */
  predicate Set(v: bv8, n: bv8)
    requires n < 8
  {
    (v >> n) & 1 != 0
  }

  /** Bit k of a 32-bit word. */
  predicate Has(v: bv32, k: bv32)
    requires k < 32
  {
    (v >> k) & 1 == 1
  }

  function Value(v: bv8): (a: nat)
    ensures a < 256
  {
    v as nat
  }

  function Vector(a: nat): bv8
    requires a < 256
  {
    a as bv8
  }

  function Or(u: bv8, v: bv8): bv8 { u | v }
  function And(u: bv8, v: bv8): bv8 { u & v }
  function Xor(u: bv8, v: bv8): bv8 { u ^ v }

  lemma ThereAndBack(a: int)
    requires 0 <= a < 256
    ensures (a as bv8) as int == a
  {
    assert a % 256 == a;
  }

  lemma SameByte(a: nat)
    requires a < 256
    ensures Value(Vector(a)) == a
  {
    ThereAndBack(a);
  }

  lemma BitOf(v: bv8, k: nat)
    requires k < 8
    ensures Bit(Value(v), k) <==> Set(v, k as bv8)
  {
    hide Weight, Value;
    ShiftDivides(v, k);
    Lowest(v >> (k as bv8));
  }

  lemma Lowest(v: bv8)
    ensures v & 1 != 0 <==> Value(v) % 2 == 1
  {
  }

  lemma {:induction false} ShiftDivides(v: bv8, k: nat)
    requires k < 8
    ensures Value(v >> (k as bv8)) == Value(v) / Weight(k)
    decreases k
  {
    hide Weight, Value;
    if k == 0 {
      NoShift(v);
    } else {
      ShiftDivides(v, k - 1);
      ShiftOnce(v, k);
      Halved(Value(v), k);
    }
  }

  lemma NoShift(v: bv8)
    ensures v >> 0 == v && Weight(0) == 1
  {
  }

  lemma Halved(v: nat, k: nat)
    requires 0 < k < 8
    ensures v / Weight(k - 1) / 2 == v / Weight(k)
  {
  }

  lemma ShiftOnce(v: bv8, k: nat)
    requires 0 < k < 8
    ensures Value(v >> (k as bv8)) == Value(v >> ((k - 1) as bv8)) / 2
  {
    hide Value;
    Half(v >> ((k - 1) as bv8));
    assert v >> (k as bv8) == (v >> ((k - 1) as bv8)) >> 1;
  }

  lemma Half(v: bv8)
    ensures Value(v >> 1) == Value(v) / 2
  {
  }

  lemma VectorOps(u: bv8, v: bv8, n: bv8)
    requires n < 8
    ensures Set(u | v, n) <==> Set(u, n) || Set(v, n)
    ensures Set(u & v, n) <==> Set(u, n) && Set(v, n)
    ensures Set(u ^ v, n) <==> Set(u, n) != Set(v, n)
  {
  }

  lemma SetBits(u: bv8, v: bv8, n: bv8)
    requires n < 8
    ensures Set(Or(u, v), n) <==> Set(u, n) || Set(v, n)
    ensures Set(And(u, v), n) <==> Set(u, n) && Set(v, n)
    ensures Set(Xor(u, v), n) <==> Set(u, n) != Set(v, n)
  {
    hide Set;
    VectorOps(u, v, n);
  }

  /** The column with c columns before it is bit 7 - c. */
  lemma ColumnBit(v: bv8, c: bv8)
    requires c < 8
    ensures And(v, 0x80 >> c) != 0 <==> Set(v, 7 - c)
  {
  }

  /** The bits of or, and, exclusive or. */
  lemma BitwiseOps(a: nat, b: nat, k: nat)
    requires a < 256 && b < 256 && k < 8
    ensures Bit(Value(Or(Vector(a), Vector(b))), k) <==> Bit(a, k) || Bit(b, k)
    ensures Bit(Value(And(Vector(a), Vector(b))), k) <==> Bit(a, k) && Bit(b, k)
    ensures Bit(Value(Xor(Vector(a), Vector(b))), k) <==> Bit(a, k) != Bit(b, k)
  {
    hide Bit, Set, Or, And, Xor, Vector, Value;
    var u, v := Vector(a), Vector(b);
    SameByte(a);
    SameByte(b);
    BitOf(u, k);
    BitOf(v, k);
    BitOf(Or(u, v), k);
    BitOf(And(u, v), k);
    BitOf(Xor(u, v), k);
    SetBits(u, v, k as bv8);
  }
}
