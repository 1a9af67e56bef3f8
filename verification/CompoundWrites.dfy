/**
 `+=`, `-=`, `++` and `--` on a bit-field: the code adds to the whole storage unit instead of going
 through the mask, and this is what becomes of the neighbours.
 */
module CompoundWrites {
  import opened Wrappers
  import opened Bits
  import opened BitTheory
  import opened Types
  import opened Ir
  import opened IrGen
  import opened StraightLine
  import opened BitFields

  // ----- what is emitted -----

  /** Load the unit, add or subtract, store the unit. */
  function GenCompound(o: Out, addr: Operand, f: Field, minus: bool, v: Operand): (r: Out)
    requires Accessible(f)
    ensures Extends(o, r)
  {
    var o1 := EmitNew(o, Load(o.nt, addr, Storage(f), IsSigned(f.ty.kind)));
    var o2 := EmitNew(o1, Bin(if minus then Sub else BinOp.Add, o1.nt, Temp(o.nt), v, false));
    Emit(o2, Store(addr, Temp(o1.nt), Storage(f)))
  }

  /** The unit with `x` added to it. */
  function AddToUnit(mem: Mem, a: int, f: Field, x: int): Mem
    requires Accessible(f) && InBounds(mem, a, Storage(f))
  {
    Write(mem, a, Encode(Storage(f), Wrap64(LoadValue(mem, a, f) + x)))
  }

  lemma CompoundRuns(code: seq<Instr>, base: seq<int>, o: Out, addr: Operand, f: Field, minus: bool, v: Operand,
                     m: State, a: int, x: int) returns (m1: State)
    requires Accessible(f) && GenCompound(o, addr, f, minus, v).code <= code && m.pc == |o.code|
    requires Value(m, addr) == Some(a) && Below(addr, o.nt) && InBounds(m.mem, a, Storage(f))
    requires Value(m, v) == Some(x) && Below(v, o.nt)
    ensures Ran(code, base, o, m, 3, GenCompound(o, addr, f, minus, v), m1)
    ensures m1.mem == AddToUnit(m.mem, a, f, if minus then -x else x)
  {
    hide Ran, LoadValue, InBounds, Wrap64, Write, Encode;
    var op, raw := if minus then Sub else BinOp.Add, LoadValue(m.mem, a, f);
    var o1 := EmitNew(o, Load(o.nt, addr, Storage(f), IsSigned(f.ty.kind)));
    var o2 := EmitNew(o1, Bin(op, o1.nt, Temp(o.nt), v, false));
    var o3 := GenCompound(o, addr, f, minus, v);
    var ma := UnitRuns(code, base, o, addr, f, m, a);
    RanKeeps(code, base, o, m, 1, o1, ma, v);
    var mb := BinRuns(code, base, o1, ma, op, Temp(o.nt), v, raw, x);
    RanThen(code, base, o, m, 1, o1, ma, 1, o2, mb);
    RanKeeps(code, base, o, m, 2, o2, mb, addr);
    m1 := WriteRuns(code, base, o2, addr, Temp(o1.nt), Storage(f), mb, a, BinVal(op, false, raw, x).value);
    RanThen(code, base, o, m, 2, o2, mb, 1, o3, m1);
  }

  // ----- the unit as one number -----

  /** The number in all the bits of the unit. */
  function UnitValue(mem: Mem, a: int, f: Field): int
    requires Accessible(f)
  {
    FieldValue(mem, a, 0, 8 * Storage(f))
  }

  lemma AddedUnit(mem: Mem, a: int, f: Field, x: int)
    requires Accessible(f) && InBounds(mem, a, Storage(f))
    ensures UnitValue(AddToUnit(mem, a, f, x), a, f) == (UnitValue(mem, a, f) + x) % Pow2(8 * Storage(f))
  {
    hide Accessible, FieldValue, LoadValue, MemBit, BitAt, Pow2, Wrap64, InBounds, Write, Encode;
    var n, raw, mem1 := 8 * Storage(f), LoadValue(mem, a, f), AddToUnit(mem, a, f, x);
    var sum := raw + x;
    forall i: nat | i < n
      ensures MemBit(mem, a, 0 + i) == BitAt(raw, i)
    {
      LoadBits(mem, a, f, i);
    }
    forall i: nat | i < n
      ensures MemBit(mem1, a, 0 + i) == BitAt(sum, i)
    {
      WriteBit(mem, a, Storage(f), Wrap64(sum), i);
      WrapBits(sum, i);
    }
    FieldValueIs(mem, a, 0, n, raw);
    FieldValueIs(mem1, a, 0, n, sum);
    ModSum(raw, x, Pow2(n));
  }

  lemma ModSum(u: int, x: int, m: int)
    requires m > 0
    ensures (u % m + x) % m == (u + x) % m
  {
    var q := (u + x) / m;
    assert u == m * (u / m) + u % m;
    assert u % m + x == m * (q - u / m) + (u + x) % m by {
      assert m * (q - u / m) == m * q - m * (u / m);
    }
    DivModUnique(u % m + x, m, q - u / m, (u + x) % m);
  }

  lemma {:induction false} PowSum(p: nat, q: nat)
    ensures Pow2(p + q) == Pow2(p) * Pow2(q)
  {
    if p > 0 {
      PowSum(p - 1, q);
      var a, b := Pow2(p - 1), Pow2(q);
      assert 2 * (a * b) == (2 * a) * b;
    }
  }

  /** A field of `p + q` bits is its low part and its high part. */
  lemma {:induction false} ValueSplits(mem: Mem, a: int, start: nat, p: nat, q: nat)
    ensures FieldValue(mem, a, start, p + q)
            == FieldValue(mem, a, start, p) + Pow2(p) * FieldValue(mem, a, start + p, q)
    decreases p
  {
    hide MemBit;
    if p > 0 {
      ValueSplits(mem, a, start + 1, p - 1, q);
      assert start + 1 + (p - 1) == start + p && p + q - 1 == (p - 1) + q;
      Doubled(Bool(MemBit(mem, a, start)), FieldValue(mem, a, start + 1, p - 1), Pow2(p - 1), FieldValue(mem, a, start + p, q));
    }
  }

  lemma Doubled(b: int, x: int, m: int, h: int)
    ensures b + 2 * (x + m * h) == (b + 2 * x) + (2 * m) * h
  {
  }

  // ----- adding to a number in parts -----

  lemma PartsUnique(m: int, l: int, r: int, l2: int, r2: int)
    requires m > 0 && 0 <= l < m && 0 <= l2 < m && l + m * r == l2 + m * r2
    ensures l == l2 && r == r2
  {
    DivModUnique(l + m * r, m, r, l);
    DivModUnique(l + m * r, m, r2, l2);
  }

  /** The low part stays exactly when the sum leaves it out; then the high part takes the rest. */
  lemma AddLow(p: int, m: int, l: int, r: int, l2: int, r2: int, x: int)
    requires p > 0 && m > 0 && 0 <= l < p && 0 <= l2 < p && 0 <= r2 < m
    requires l2 + p * r2 == (l + p * r + x) % (p * m)
    ensures l2 == l <==> x % p == 0
    ensures x % p == 0 ==> r2 == (r + x / p) % m
  {
    var q, d, e := (l + p * r + x) / (p * m), x / p, x % p;
    assert p * m > 0;
    Regroup(p, m, l, r, l2, r2, d, e, q);
    if e == 0 {
      PartsUnique(p, l, r + d, l2, r2 + m * q);
      DivModUnique(r + d, m, q, r2);
    } else if l == l2 {
      PartsUnique(p, e, r + d, 0, r2 + m * q);
    }
  }

  lemma Regroup(p: int, m: int, l: int, r: int, l2: int, r2: int, d: int, e: int, q: int)
    requires l + p * r + (p * d + e) == (p * m) * q + (l2 + p * r2)
    ensures l + e + p * (r + d) == l2 + p * (r2 + m * q)
  {
    assert p * (r + d) == p * r + p * d;
    assert p * (r2 + m * q) == p * r2 + p * (m * q);
    assert p * (m * q) == (p * m) * q;
  }

  /** The high part stays exactly when the low part takes the whole sum. */
  lemma AddHigh(w: int, k: int, f: int, h: int, f2: int, h2: int, d: int)
    requires w > 0 && k > 0 && 0 <= f < w && 0 <= f2 < w && 0 <= h < k && 0 <= h2 < k
    requires f2 + w * h2 == (f + w * h + d) % (w * k)
    ensures h2 == h <==> (f + d) % (w * k) < w
    ensures h2 == h ==> f2 == (f + d) % (w * k)
  {
    var m, t := w * k, f + w * h + d;
    Product(w, k, h);
    assert t == m * (t / m) + (f2 + w * h2);
    if h2 == h {
      DivModUnique(f + d, m, t / m, f2);
    }
    var g := (f + d) % m;
    if g < w {
      assert t == m * ((f + d) / m) + (g + w * h);
      DivModUnique(t, m, (f + d) / m, g + w * h);
      PartsUnique(w, g, h, f2, h2);
    }
  }

  /** The product, and room for one more `w` below it. */
  lemma Product(w: int, k: int, h: int)
    requires w > 0 && 0 <= h < k
    ensures w * k >= w && 0 <= w * h && w * h + w <= w * k
  {
    MulAtLeast(w, k - h);
    assert w * (k - h) == w * k - w * h;
    if h > 0 {
      MulAtLeast(w, h);
    }
  }

  // ----- what becomes of the neighbours -----

  /** The bits below the field, the field, and the bits above it. */
  ghost predicate SamePart(mem: Mem, mem1: Mem, a: int, start: nat, w: nat) {
    forall i: nat {:trigger MemBit(mem1, a, i)} :: start <= i < start + w ==> MemBit(mem1, a, i) == MemBit(mem, a, i)
  }

  lemma SamePartIs(mem: Mem, mem1: Mem, a: int, start: nat, w: nat)
    ensures SamePart(mem, mem1, a, start, w) <==> FieldValue(mem1, a, start, w) == FieldValue(mem, a, start, w)
  {
    hide MemBit, FieldValue;
    if SamePart(mem, mem1, a, start, w) {
      FieldValueKept(mem, mem1, a, start, w);
    }
    if FieldValue(mem1, a, start, w) == FieldValue(mem, a, start, w) {
      forall i: nat | start <= i < start + w
        ensures MemBit(mem1, a, i) == MemBit(mem, a, i)
      {
        FieldValueBit(mem, a, start, w, i - start);
        FieldValueBit(mem1, a, start, w, i - start);
      }
    }
  }

  /** Every bit of the unit outside the field is as it was. */
  ghost predicate NeighboursKept(mem: Mem, mem1: Mem, a: int, f: Field)
    requires Accessible(f) && f.width > 0
  {
    && SamePart(mem, mem1, a, 0, f.bitOffset)
    && SamePart(mem, mem1, a, f.bitOffset + f.width, 8 * Storage(f) - f.bitOffset - f.width)
  }

  /** The field once `x` has been added to the unit, as long as the neighbours stay. */
  function Sum(mem: Mem, a: int, f: Field, x: int): int
    requires Accessible(f) && f.width > 0
  {
    (FieldValue(mem, a, f.bitOffset, f.width) + x / Pow2(f.bitOffset)) % Pow2(8 * Storage(f) - f.bitOffset)
  }

  /**
   Adding to the unit keeps the neighbours exactly when nothing is added below the field and the sum
   fits the field, in the bits from the field's first to the end of the unit.
   */
  lemma CompoundExact(mem: Mem, a: int, f: Field, x: int)
    requires Accessible(f) && f.width > 0 && InBounds(mem, a, Storage(f))
    ensures NeighboursKept(mem, AddToUnit(mem, a, f, x), a, f)
            <==> x % Pow2(f.bitOffset) == 0 && Sum(mem, a, f, x) < Pow2(f.width)
    ensures NeighboursKept(mem, AddToUnit(mem, a, f, x), a, f) ==>
              FieldValue(AddToUnit(mem, a, f, x), a, f.bitOffset, f.width) == Sum(mem, a, f, x)
  {
    hide FieldValue, SamePart, Pow2, Accessible, InBounds, AddToUnit, Storage;
    var b, w, mem1 := f.bitOffset, f.width, AddToUnit(mem, a, f, x);
    FieldShape(f);
    var k := 8 * Storage(f) - b - w;
    AddedUnit(mem, a, f, x);
    UnitParts(mem, a, f);
    UnitParts(mem1, a, f);
    PowSum(b, w + k);
    PowSum(w, k);
    SamePartIs(mem, mem1, a, 0, b);
    SamePartIs(mem, mem1, a, b + w, k);
    AddLow(Pow2(b), Pow2(w + k), FieldValue(mem, a, 0, b), FieldValue(mem, a, b, w + k),
           FieldValue(mem1, a, 0, b), FieldValue(mem1, a, b, w + k), x);
    if x % Pow2(b) == 0 {
      AddHigh(Pow2(w), Pow2(k), FieldValue(mem, a, b, w), FieldValue(mem, a, b + w, k),
              FieldValue(mem1, a, b, w), FieldValue(mem1, a, b + w, k), x / Pow2(b));
    }
  }

  lemma UnitParts(mem: Mem, a: int, f: Field)
    requires Accessible(f) && f.width > 0
    ensures var b, w, k := f.bitOffset, f.width, 8 * Storage(f) - f.bitOffset - f.width;
            && k >= 0
            && UnitValue(mem, a, f) == FieldValue(mem, a, 0, b) + Pow2(b) * FieldValue(mem, a, b, w + k)
            && FieldValue(mem, a, b, w + k) == FieldValue(mem, a, b, w) + Pow2(w) * FieldValue(mem, a, b + w, k)
  {
    hide FieldValue, Pow2, Accessible;
    FieldShape(f);
    var b, w := f.bitOffset, f.width;
    ValueSplits(mem, a, 0, b, 8 * Storage(f) - b);
    ValueSplits(mem, a, b, w, 8 * Storage(f) - b - w);
  }

  /** `++` keeps the neighbours exactly for a field at bit 0 that fills its unit or is not at its maximum. */
  lemma IncrementExact(mem: Mem, a: int, f: Field)
    requires Accessible(f) && f.width > 0 && InBounds(mem, a, Storage(f))
    ensures NeighboursKept(mem, AddToUnit(mem, a, f, 1), a, f)
            <==> f.bitOffset == 0
                 && (f.width == 8 * Storage(f) || FieldValue(mem, a, 0, f.width) < Pow2(f.width) - 1)
  {
    hide FieldValue, Accessible, InBounds, AddToUnit, NeighboursKept, Storage;
    FieldShape(f);
    CompoundExact(mem, a, f, 1);
    var n, w, v := 8 * Storage(f), f.width, FieldValue(mem, a, f.bitOffset, f.width);
    if f.bitOffset > 0 {
      assert Pow2(f.bitOffset) == 2 * Pow2(f.bitOffset - 1);
      SmallMod(1, Pow2(f.bitOffset));
    } else if w < n {
      Pow2Mono(w + 1, n);
      SmallMod(v + 1, Pow2(n));
    } else {
      Remainder(v + 1, Pow2(n));
    }
  }
}
