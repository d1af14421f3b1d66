/** What REP INS and OUTS leave behind, in plain numbers: where the registers end, which byte lands where, and
    what is sent. */
module RepIoMeaning {
  import opened Arithmetic
  import opened RepIo

  // -------------------------------------------------------------------- registers

  /** A write of two or four bytes replaces the low part of the register and nothing else. */
  lemma WideWrite(g: Registers, r: nat, size: nat, v: int)
    requires |g| == 8 && r < 8 && (size == 2 || size == 4)
    ensures var m := if size == 2 then 0x1_0000 else 0x1_0000_0000; var h := SetXr(g, r, size, v);
      && h[r] % m == v % m && h[r] / m == g[r] / m && (forall q :: 0 <= q < 8 && q != r ==> h[q] == g[q])
      && Xr(g, r, size) == g[r] % m
  {
    var m := if size == 2 then 0x1_0000 else 0x1_0000_0000;
    DivUnique(g[r] - g[r] % m + v % m, m, g[r] / m, v % m);
  }

  /** A byte write: 0 to 3 are the low bytes of the first four registers, 4 to 7 the second bytes of them. */
  lemma ByteWrite(g: Registers, r: nat, v: int)
    requires |g| == 8 && r < 8
    ensures var h := SetXr(g, r, 1, v);
      && (r < 4 ==> h[r] % 256 == v % 256 && h[r] / 256 == g[r] / 256)
      && (r >= 4 ==> h[r - 4] % 256 == g[r - 4] % 256 && h[r - 4] / 256 % 256 == v % 256 && h[r - 4] / 65536 == g[r - 4] / 65536)
      && (forall q :: 0 <= q < 8 && q != r % 4 ==> h[q] == g[q])
      && Xr(g, r, 1) == if r < 4 then g[r] % 256 else g[r - 4] / 256 % 256
  {
    if r < 4 {
      DivUnique(g[r] - g[r] % 256 + v % 256, 256, g[r] / 256, v % 256);
    } else {
      SecondByte(g[r - 4], v);
    }
  }

  lemma SecondByte(a: nat, v: int)
    ensures var b := a - a / 256 % 256 * 256 + v % 256 * 256;
      b % 256 == a % 256 && b / 256 % 256 == v % 256 && b / 65536 == a / 65536
  {
    var low, mid, high := a % 256, a / 256 % 256, a / 256 / 256;
    var b := a - mid * 256 + v % 256 * 256;
    assert a == (high * 256 + mid) * 256 + low;
    DivUnique(b, 256, high * 256 + v % 256, low);
    DivUnique(high * 256 + v % 256, 256, high, v % 256);
    DivUnique(b, 65536, high, v % 256 * 256 + low);
    DivUnique(a, 65536, high, mid * 256 + low);
  }

  // ------------------------------------------------------- where the registers end

  /** The register that steps through memory: ESI for OUTS, EDI for INS. */
  function Index(i: Insn): nat { if i.out then 6 else 7 }

  function Modulus(i: Insn): nat { if i.asize == 2 then 0x1_0000 else 0x1_0000_0000 }

  /** Up with the direction flag clear, down with it set. */
  function Stepped(i: Insn, start: int, k: nat): int
    requires ValidInsn(i)
  {
    if i.df then (start - k * i.n) % Modulus(i) else (start + k * i.n) % Modulus(i)
  }

  lemma StepAdds(i: Insn, start: int, k: nat)
    requires ValidInsn(i)
    ensures Stepped(i, Stepped(i, start, 1), k) == Stepped(i, start, k + 1)
  {
    var m := Modulus(i);
    var d: int := if i.df then 0 - i.n as int else i.n;
    assert (k + 1) * d == k * d + d;
    ModAdd(start + d, k * d, m);
    if i.df { assert k * d == 0 - k * i.n && (k + 1) * d == 0 - (k + 1) * i.n; }
  }

  /** The registers k iterations on: the index register has moved by k elements and the count is k less, both
      within their address size; the others are as before. */
  predicate RegistersMoved(i: Insn, s: State, t: State, k: nat)
    requires Valid(s) && Valid(t) && ValidInsn(i)
  {
    var r, m := Index(i), Modulus(i);
    && t.g[r] % m == Stepped(i, s.g[r] % m, k) && t.g[r] / m == s.g[r] / m
    && (if i.rep then t.g[1] % m == s.g[1] % m - k && t.g[1] / m == s.g[1] / m else t.g[1] == s.g[1])
    && (forall q :: 0 <= q < 8 && q != r && q != 1 ==> t.g[q] == s.g[q])
  }

  lemma OneIndex(i: Insn, s: State)
    requires Valid(s) && ValidInsn(i) && Count(i, s) > 0
    ensures RegistersMoved(i, s, Iteration(i, s), 1)
  {
    hide SetXr, Xr, Transfer;
    var m, r := Modulus(i), Index(i);
    var v := Xr(s.g, r, i.asize) + StepOf(i);
    WideWrite(s.g, r, i.asize, v);
    var g := SetXr(s.g, r, i.asize, v);
    WideWrite(s.g, 1, i.asize, 0);
    WideWrite(g, 1, i.asize, Count(i, s) - 1);
    if i.rep { DivUnique(s.g[1] % m - 1, m, 0, s.g[1] % m - 1); }
  }

  lemma MovedAdd(i: Insn, s: State, t: State, u: State, k: nat)
    requires Valid(s) && Valid(t) && Valid(u) && ValidInsn(i)
    requires RegistersMoved(i, s, t, 1) && RegistersMoved(i, t, u, k)
    ensures RegistersMoved(i, s, u, k + 1)
  {
    hide Stepped;
    StepAdds(i, s.g[Index(i)] % Modulus(i), k);
  }

  lemma MovedNone(i: Insn, s: State)
    requires Valid(s) && ValidInsn(i)
    ensures RegistersMoved(i, s, s, 0)
  {
    StepNone(i, s.g[Index(i)], Modulus(i));
  }

  lemma {:induction false} RegistersAfter(i: Insn, s: State, k: nat)
    requires Valid(s) && ValidInsn(i) && k <= Count(i, s)
    ensures RegistersMoved(i, s, Iterations(i, s, k), k)
    decreases k
  {
    hide Iteration, Count, RegistersMoved;
    if k == 0 {
      MovedNone(i, s);
    } else {
      var s1 := Iteration(i, s);
      OneIndex(i, s);
      NextCount(i, s, k);
      RegistersAfter(i, s1, k - 1);
      MovedAdd(i, s, s1, Iterations(i, s, k), k - 1);
    }
  }

  lemma SteppedIs(i: Insn, start: int, k: nat)
    requires ValidInsn(i)
    ensures Stepped(i, start, k) == if i.df then (start - k * i.n) % Modulus(i) else (start + k * i.n) % Modulus(i)
  {
  }

  lemma StepNone(i: Insn, a: int, m: int)
    requires m > 0
    ensures (a % m + 0 * i.n) % m == a % m == (a % m - 0 * i.n) % m
  {
    DivUnique(a % m, m, 0, a % m);
  }

  /** An instruction asks for as many iterations as the count register says, or for one. */
  lemma CountIs(i: Insn, s: State)
    requires Valid(s) && ValidInsn(i)
    ensures Count(i, s) == if i.rep then s.g[1] % Modulus(i) else 1
  {
    hide SetXr;
    WideWrite(s.g, 1, i.asize, 0);
  }

  // --------------------------------------------------------------------- the bytes

  function Weight(b: nat): (w: nat)
    ensures w > 0
  {
    match b case 0 => 1 case 1 => 256 case 2 => 65536 case _ => 16777216
  }

  /** Byte b of a value, low byte first. */
  function ByteOf(v: nat, b: nat): nat { v / Weight(b) % 256 }

  function MemAt(mem: map<int, int>, a: int): int { if a in mem then mem[a] else 0 }

  /** Where the j-th element is. */
  function ElementAt(i: Insn, s: State, j: nat): int
    requires Valid(s) && ValidInsn(i)
  {
    var start := s.g[Index(i)] % Modulus(i);
    (i.base + if i.df then (start - j * i.n) % Modulus(i) else (start + j * i.n) % Modulus(i)) % 0x1_0000_0000
  }

  predicate InElement(i: Insn, s: State, j: nat, a: int)
    requires Valid(s) && ValidInsn(i)
  {
    ElementAt(i, s, j) <= a < ElementAt(i, s, j) + i.n
  }

  /** The j-th value the port delivers; 0 when it has none. */
  function ValueOf(s: State, j: nat): nat { if j < |s.input| then s.input[j] else 0 }

  lemma AddressIs(i: Insn, s: State)
    requires Valid(s) && ValidInsn(i)
    ensures Address(i, s) == ElementAt(i, s, 0)
  {
    hide SetXr, Xr;
    WideWrite(s.g, Index(i), i.asize, 0);
    StepNone(i, s.g[Index(i)], Modulus(i));
  }

  /** The next state's elements are this one's from the second on. */
  lemma ElementMoves(i: Insn, s: State, j: nat)
    requires Valid(s) && ValidInsn(i) && Count(i, s) > 0
    ensures ElementAt(i, Iteration(i, s), j) == ElementAt(i, s, j + 1)
  {
    hide Iteration, Stepped;
    var start := s.g[Index(i)] % Modulus(i);
    OneIndex(i, s);
    StepAdds(i, start, j);
    SteppedIs(i, start, j + 1);
    SteppedIs(i, Iteration(i, s).g[Index(i)] % Modulus(i), j);
  }

  /** Storing n bytes of a value. */
  lemma StoredBytes(mem: map<int, int>, a: nat, n: nat, v: nat)
    requires n == 1 || n == 2 || n == 4
    ensures var t := Store(mem, a, n, v);
      && (forall b: nat :: b < n ==> a + b in t && t[a + b] == ByteOf(v, b))
      && (forall c: int :: !(a <= c < a + n) ==> (c in t <==> c in mem) && (c in t ==> t[c] == mem[c]))
  {
    hide Store;
    ByteChain(v);
    StoreStep(mem, a, n, v);
    var m1 := mem[a := v % 256];
    StoreStep(m1, a + 1, n - 1, v / 256);
    if n > 1 {
      var m2 := m1[a + 1 := v / 256 % 256];
      StoreStep(m2, a + 2, n - 2, v / 256 / 256);
      if n > 2 {
        var m3 := m2[a + 2 := v / 256 / 256 % 256];
        StoreStep(m3, a + 3, 1, v / 256 / 256 / 256);
        StoreStep(m3[a + 3 := v / 256 / 256 / 256 % 256], a + 4, 0, v / 256 / 256 / 256 / 256);
      }
    }
  }

  lemma StoreStep(mem: map<int, int>, a: nat, n: nat, v: nat)
    ensures Store(mem, a, n, v) == if n == 0 then mem else Store(mem[a := v % 256], a + 1, n - 1, v / 256)
  {
  }

  lemma ByteChain(v: nat)
    ensures v / 256 / 256 == v / 65536 && v / 256 / 256 / 256 == v / 16777216
  {
    DivUnique(v / 256, 256, v / 65536, v / 256 - v / 65536 * 256);
    DivUnique(v / 65536, 256, v / 16777216, v / 65536 - v / 16777216 * 256);
  }

  /** A port value's low bytes are those of the value cut to the element. */
  lemma CutByte(v: nat, n: nat, b: nat)
    requires (n == 1 || n == 2 || n == 4) && b < n
    ensures ByteOf(v % Pow2(n), b) == ByteOf(v, b)
  {
    var m, w := Pow2(n), Weight(b);
    var x: nat := if n - b == 1 then 256 else if n - b == 2 then 65536 else if n - b == 3 then 16777216 else 0x1_0000_0000;
    assert m == x * w && x % 256 == 0;
    var q, r := v / m, v % m;
    assert v == q * m + r;
    assert v == (q * x + r / w) * w + r % w;
    DivUnique(v, w, q * x + r / w, r % w);
    var y := x / 256;
    assert q * x == (q * y) * 256;
    DivUnique(q * x + r / w, 256, q * y + r / w / 256, r / w % 256);
  }

  /** An INS iteration stores byte b of the next port value at its place in the element. */
  lemma OneByte(i: Insn, s: State, b: nat)
    requires Valid(s) && ValidInsn(i) && !i.out && b < i.n
    ensures var t := Iteration(i, s); var a := ElementAt(i, s, 0) + b; a in t.mem && t.mem[a] == ByteOf(ValueOf(s, 0), b)
  {
    hide SetXr, Xr, Store, ElementAt, ByteOf;
    AddressIs(i, s);
    StoredBytes(s.mem, Address(i, s), i.n, Delivered(s, i.n));
    DeliveredByte(s, i.n, b);
    var a := Address(i, s) + b;
    assert a == ElementAt(i, s, 0) + b;
  }

  /** It changes no byte outside the element. */
  lemma OtherBytes(i: Insn, s: State, c: int)
    requires Valid(s) && ValidInsn(i) && !i.out && !InElement(i, s, 0, c)
    ensures var t := Iteration(i, s); (c in t.mem <==> c in s.mem) && (c in t.mem ==> t.mem[c] == s.mem[c])
  {
    hide SetXr, Xr, Store, ElementAt, ByteOf;
    AddressIs(i, s);
    StoredBytes(s.mem, Address(i, s), i.n, Delivered(s, i.n));
  }

  lemma DeliveredByte(s: State, n: nat, b: nat)
    requires (n == 1 || n == 2 || n == 4) && b < n
    ensures ByteOf(Delivered(s, n), b) == ByteOf(ValueOf(s, 0), b)
  {
    hide ByteOf, Pow2;
    if s.input != [] { CutByte(s.input[0], n, b); }
  }

  lemma NextValue(i: Insn, s: State, j: nat)
    requires Valid(s) && !i.out
    ensures ValueOf(Iteration(i, s), j) == ValueOf(s, j + 1)
  {
    hide SetXr, Xr, Store;
  }

  lemma NextCount(i: Insn, s: State, k: nat)
    requires Valid(s) && ValidInsn(i) && 0 < k <= Count(i, s)
    ensures k - 1 <= Count(i, Iteration(i, s)) && (k > 1 ==> i.rep)
  {
    hide Iteration, Xr;
    if i.rep { CountDown(i, s); }
  }

  /** INS changes no byte outside the elements it stores. */
  lemma {:induction false} InsUntouched(i: Insn, s: State, k: nat, a: int)
    requires Valid(s) && ValidInsn(i) && !i.out && k <= Count(i, s)
    requires forall j: nat :: j < k ==> !InElement(i, s, j, a)
    ensures var t := Iterations(i, s, k); (a in t.mem <==> a in s.mem) && (a in t.mem ==> t.mem[a] == s.mem[a])
    decreases k
  {
    hide Iteration, ElementAt, Count;
    if k > 0 {
      var s1 := Iteration(i, s);
      NextCount(i, s, k);
      assert !InElement(i, s, 0, a);
      OtherBytes(i, s, a);
      forall j: nat | j < k - 1 ensures !InElement(i, s1, j, a) {
        ElementMoves(i, s, j);
        assert !InElement(i, s, j + 1, a);
      }
      InsUntouched(i, s1, k - 1, a);
    }
  }

  /** Byte b of the j-th value read from the port ends at its place in the j-th element, low byte first, unless
      a later element covers it. */
  lemma {:induction false} InsByte(i: Insn, s: State, k: nat, j: nat, b: nat, a: int)
    requires Valid(s) && ValidInsn(i) && !i.out && j < k <= Count(i, s) && b < i.n
    requires a == ElementAt(i, s, j) + b && forall l: nat :: j < l < k ==> !InElement(i, s, l, a)
    ensures var t := Iterations(i, s, k); a in t.mem && t.mem[a] == ValueOf(s, j) / Weight(b) % 256
    decreases k
  {
    hide Iteration, ElementAt, Count, ByteOf;
    var s1 := Iteration(i, s);
    NextCount(i, s, k);
    ByteIs(ValueOf(s, j), b);
    if j == 0 {
      OneByte(i, s, b);
      forall l: nat | l < k - 1 ensures !InElement(i, s1, l, a) {
        ElementMoves(i, s, l);
        assert !InElement(i, s, l + 1, a);
      }
      InsUntouched(i, s1, k - 1, a);
    } else {
      ElementMoves(i, s, j - 1);
      NextValue(i, s, j - 1);
      forall l: nat | j - 1 < l < k - 1 ensures !InElement(i, s1, l, a) {
        ElementMoves(i, s, l);
        assert !InElement(i, s, l + 1, a);
      }
      InsByte(i, s1, k - 1, j - 1, b, a);
    }
  }

  lemma ByteIs(v: nat, b: nat)
    ensures ByteOf(v, b) == v / Weight(b) % 256
  {
  }

  // --------------------------------------------------------------------- what is sent

  /** A value loaded has the memory's bytes, low byte first, and nothing above them. */
  lemma LoadedBytes(mem: map<int, int>, a: nat, n: nat)
    requires n == 1 || n == 2 || n == 4
    ensures var v := Load(mem, a, n);
      (forall b: nat :: b < n ==> ByteOf(v, b) == MemAt(mem, a + b) % 256) && v < (if n == 4 then 0x1_0000_0000 else Weight(n))
  {
    hide Load, ByteOf, MemAt;
    var b0, b1 := MemAt(mem, a) % 256, MemAt(mem, a + 1) % 256;
    var b2, b3 := MemAt(mem, a + 2) % 256, MemAt(mem, a + 3) % 256;
    LoadStep(mem, a, n);
    LoadStep(mem, a + 1, n - 1);
    if n == 1 {
      ThreeBytes(b0, 0, 0, 0);
    } else {
      LoadStep(mem, a + 2, n - 2);
      if n == 2 {
        ThreeBytes(b0, b1, 0, 0);
      } else {
        LoadStep(mem, a + 3, 1);
        LoadStep(mem, a + 4, 0);
        ThreeBytes(b0, b1, b2, b3);
      }
    }
  }

  lemma LoadStep(mem: map<int, int>, a: nat, n: nat)
    ensures Load(mem, a, n) == if n == 0 then 0 else MemAt(mem, a) % 256 + 256 * Load(mem, a + 1, n - 1)
  {
  }

  lemma ThreeBytes(b0: nat, b1: nat, b2: nat, b3: nat)
    requires b0 < 256 && b1 < 256 && b2 < 256 && b3 < 256
    ensures var v := b0 + 256 * (b1 + 256 * (b2 + 256 * b3));
      ByteOf(v, 0) == b0 && ByteOf(v, 1) == b1 && ByteOf(v, 2) == b2 && ByteOf(v, 3) == b3
  {
    var v := b0 + 256 * (b1 + 256 * (b2 + 256 * b3));
    DivUnique(v, 256, b1 + 256 * (b2 + 256 * b3), b0);
    DivUnique(v, 65536, b2 + 256 * b3, b0 + 256 * b1);
    DivUnique(v, 16777216, b3, b0 + 256 * (b1 + 256 * b2));
    DivUnique(b1 + 256 * (b2 + 256 * b3), 256, b2 + 256 * b3, b1);
    DivUnique(b2 + 256 * b3, 256, b3, b2);
  }

  /** The j-th value OUTS sends goes to port DX and is the j-th element of memory. */
  lemma {:induction false} OutsSends(i: Insn, s: State, k: nat, j: nat)
    requires Valid(s) && ValidInsn(i) && i.out && j < k <= Count(i, s)
    ensures var t := Iterations(i, s, k);
      && |t.output| == |s.output| + k && s.output <= t.output && t.mem == s.mem && t.input == s.input
      && var (port, size, v) := t.output[|s.output| + j];
        && port == s.g[2] % 0x1_0000 && size == i.n && v < (if i.n == 4 then 0x1_0000_0000 else Weight(i.n))
        && forall b: nat :: b < i.n ==> v / Weight(b) % 256 == MemAt(s.mem, ElementAt(i, s, j) + b) % 256
    decreases k
  {
    hide Iteration, ElementAt, Count, Load, MemAt, Moved;
    var s1 := Iteration(i, s);
    NextCount(i, s, k);
    OneSend(i, s);
    MovedParts(i, s, k);
    if j == 0 {
      MovedParts(i, s1, k - 1);
    } else {
      ElementMoves(i, s, j - 1);
      OutsSends(i, s1, k - 1, j - 1);
    }
  }

  lemma MovedParts(i: Insn, s: State, k: nat)
    requires Valid(s) && i.out
    ensures var t := Iterations(i, s, k);
      |t.output| == |s.output| + k && s.output <= t.output && t.mem == s.mem && t.input == s.input
  {
    hide Iteration;
    TakesOneEach(i, s, k);
  }

  lemma OneSend(i: Insn, s: State)
    requires Valid(s) && ValidInsn(i) && i.out && Count(i, s) > 0
    ensures var t := Iteration(i, s);
      && |t.output| == |s.output| + 1 && s.output <= t.output && t.mem == s.mem && t.input == s.input && t.g[2] == s.g[2]
      && var (port, size, v) := t.output[|s.output|];
        && port == s.g[2] % 0x1_0000 && size == i.n && v < (if i.n == 4 then 0x1_0000_0000 else Weight(i.n))
        && forall b: nat :: b < i.n ==> v / Weight(b) % 256 == MemAt(s.mem, ElementAt(i, s, 0) + b) % 256
  {
    hide SetXr, Xr, Load, ElementAt, MemAt;
    OneIndex(i, s);
    AddressIs(i, s);
    WideWrite(s.g, 2, 2, 0);
    LoadedBytes(s.mem, Address(i, s), i.n);
    var v := Load(s.mem, Address(i, s), i.n);
    forall b: nat | b < i.n ensures v / Weight(b) % 256 == MemAt(s.mem, Address(i, s) + b) % 256 { ByteIs(v, b); }
  }
}
