/**
 Bit-field access: the loads, masks and shifts that irgen emits, and what they do to the bits of an
 object, over any sequence of writes to the fields of a sealed struct.
 */
module BitFields {
  import opened Wrappers
  import opened Bits
  import opened BitTheory
  import opened Types
  import opened Layout
  import opened CompleteTypes
  import opened Ir
  import opened IrGen
  import opened StraightLine

  function IsSigned(k: Kind): bool {
    k == CharK || k == SCharK || k == ShortK || k == IntK || k == LongK || k == LLongK
  }

  /** `bit_mask` as the 64-bit value an instruction carries: widths of 63 and more give all ones. */
  function BitMask(width: int): int {
    if width <= 0 then 0 else if width >= 63 then -1 else Pow2(width) - 1
  }

  /** A bit-field, or an ordinary field of a scalar type of at most 8 bytes that is not floating. */
  predicate Accessible(f: Field) {
    && f.ty.Scalar? && f.ty.kind != FloatK && f.ty.kind != DoubleK && f.ty.kind != LDoubleK
    && f.width != 0 && f.width <= 8 * Sizeof(f.ty)
    && (f.width > 0 ==> 0 <= f.bitOffset && f.bitOffset + f.width <= 8 * Sizeof(f.ty))
  }

  /** The number of bits a field holds. */
  function FieldBits(f: Field): nat
    requires Accessible(f)
  {
    if f.width > 0 then f.width else 8 * Sizeof(f.ty)
  }

  // ----- what is emitted -----

  function Storage(f: Field): (size: nat)
    requires Accessible(f)
    ensures size == 1 || size == 2 || size == 4 || size == 8
  {
    KindSize(f.ty.kind)
  }

  lemma FieldShape(f: Field)
    requires Accessible(f) && f.width > 0
    ensures 1 <= f.width && 0 <= f.bitOffset && f.bitOffset + f.width <= 8 * Storage(f) <= 64
  {
  }

  /** The shift is left out when the field starts at bit 0. */
  function EmitShift(o: Out, op: BinOp, v: Operand, f: Field): (r: (Out, Operand))
    ensures Extends(o, r.0)
  {
    if f.bitOffset > 0 then (EmitNew(o, Bin(op, o.nt, v, Imm(f.bitOffset), false)), Temp(o.nt)) else (o, v)
  }

  function GenBitfieldLoad(o: Out, addr: Operand, f: Field): (r: (Out, Operand))
    requires Accessible(f)
    ensures Extends(o, r.0)
  {
    var o1 := EmitNew(o, Load(o.nt, addr, Storage(f), IsSigned(f.ty.kind)));
    var (o2, v) := EmitShift(o1, Shr, Temp(o.nt), f);
    (EmitNew(o2, Bin(And, o2.nt, v, Imm(BitMask(f.width)), false)), Temp(o2.nt))
  }

  /** The bits of the storage unit that the field occupies, as a 64-bit value. */
  function ShiftedMask(f: Field): (m: int)
    requires Accessible(f) && f.width > 0
    ensures Int64(m)
  {
    Wrap64(BitMask(f.width) * Pow2(f.bitOffset))
  }

  function GenBitfieldStore(o: Out, addr: Operand, f: Field, value: Operand): (r: Out)
    requires Accessible(f) && f.width > 0
    ensures Extends(o, r)
  {
    var o1 := EmitNew(o, Load(o.nt, addr, Storage(f), IsSigned(f.ty.kind)));
    var o2 := EmitNew(o1, Bin(And, o1.nt, Temp(o.nt), Imm(-ShiftedMask(f) - 1), false));
    var o3 := EmitNew(o2, Bin(And, o2.nt, value, Imm(BitMask(f.width)), false));
    var (o4, v) := EmitShift(o3, Shl, Temp(o2.nt), f);
    var o5 := EmitNew(o4, Bin(Or, o4.nt, Temp(o1.nt), v, false));
    Emit(o5, Store(addr, Temp(o4.nt), Storage(f)))
  }

  // ----- the values computed -----

  function LoadValue(mem: Mem, a: int, f: Field): int
    requires Accessible(f) && InBounds(mem, a, Storage(f))
  {
    if Storage(f) == 8 then DecodeS(Read(mem, a, 8)) else Extend(IsSigned(f.ty.kind), Read(mem, a, Storage(f)))
  }

  function ShiftRight(f: Field, x: int): int
    requires f.bitOffset >= 0
  {
    if f.bitOffset > 0 then Wrap64(x / Pow2(f.bitOffset % 64)) else x
  }

  function ShiftLeft(f: Field, x: int): int
    requires f.bitOffset >= 0
  {
    if f.bitOffset > 0 then Wrap64(x * Pow2(f.bitOffset % 64)) else x
  }

  function And64(x: int, y: int): (r: int)
    ensures Int64(r)
  {
    Wrap64(Bitwise(BitAnd, 63, x, y))
  }

  function BitfieldLoad(mem: Mem, a: int, f: Field): int
    requires Accessible(f) && f.width > 0 && InBounds(mem, a, Storage(f))
  {
    And64(ShiftRight(f, LoadValue(mem, a, f)), BitMask(f.width))
  }

  /** The storage unit with the field's bits replaced. */
  function NextUnit(f: Field, current: int, value: int): int
    requires Accessible(f) && f.width > 0
  {
    Wrap64(Bitwise(BitOr, 63, And64(current, -ShiftedMask(f) - 1), ShiftLeft(f, And64(value, BitMask(f.width)))))
  }

  function BitfieldStore(mem: Mem, a: int, f: Field, value: int): Mem
    requires Accessible(f) && f.width > 0 && InBounds(mem, a, Storage(f))
  {
    Write(mem, a, Encode(Storage(f), NextUnit(f, LoadValue(mem, a, f), value)))
  }

  // ----- the emitted code computes them -----

  lemma UnitRuns(code: seq<Instr>, base: seq<int>, o: Out, addr: Operand, f: Field, m: State, a: int) returns (m1: State)
    requires Accessible(f) && m.pc == |o.code|
    requires EmitNew(o, Load(o.nt, addr, Storage(f), IsSigned(f.ty.kind))).code <= code
    requires Value(m, addr) == Some(a) && InBounds(m.mem, a, Storage(f))
    ensures var o1 := EmitNew(o, Load(o.nt, addr, Storage(f), IsSigned(f.ty.kind)));
            && Ran(code, base, o, m, 1, o1, m1) && m1.pc == |o1.code|
            && m1.mem == m.mem && Value(m1, Temp(o.nt)) == Some(LoadValue(m.mem, a, f))
  {
    hide Steps, DecodeS, DecodeU, Ran;
    var i := Load(o.nt, addr, Storage(f), IsSigned(f.ty.kind));
    CodeAt(code, NewTemp(o), i);
    m1 := NewRuns(code, base, o, i, m, LoadValue(m.mem, a, f));
  }

  lemma ShiftRuns(code: seq<Instr>, base: seq<int>, o: Out, op: BinOp, v: Operand, f: Field, m: State, x: int)
    returns (k: nat, m1: State)
    requires Accessible(f) && f.width > 0 && (op == Shr || op == Shl) && Below(v, o.nt)
    requires m.pc == |o.code| && EmitShift(o, op, v, f).0.code <= code && Value(m, v) == Some(x)
    ensures var (o1, w) := EmitShift(o, op, v, f);
            && Ran(code, base, o, m, k, o1, m1) && m1.pc == |o1.code| && o.nt <= o1.nt && m1.mem == m.mem && Below(w, o1.nt)
            && Value(m1, w) == Some(if op == Shr then ShiftRight(f, x) else ShiftLeft(f, x))
  {
    hide Ran;
    if f.bitOffset > 0 {
      k := 1;
      m1 := BinRuns(code, base, o, m, op, v, Imm(f.bitOffset), x, f.bitOffset);
    } else {
      k, m1 := 0, m;
      RanNothing(code, base, o, m);
    }
  }

  lemma MaskIsWord(w: int)
    ensures Int64(BitMask(w))
  {
    if 0 < w < 63 {
      Pow63();
      Pow2Mono(w, 62);
    }
  }

  lemma {:induction false} Pow2Mono(a: nat, b: nat)
    requires a <= b
    ensures Pow2(a) <= Pow2(b)
    decreases b
  {
    if a < b {
      Pow2Mono(a, b - 1);
    }
  }

  /** Running the emitted load leaves the field's value in the result and memory as it was. */
  lemma LoadRuns(code: seq<Instr>, base: seq<int>, o: Out, addr: Operand, f: Field, m: State, a: int)
    returns (k: nat, m1: State)
    requires Accessible(f) && f.width > 0 && GenBitfieldLoad(o, addr, f).0.code <= code && m.pc == |o.code|
    requires Value(m, addr) == Some(a) && InBounds(m.mem, a, Storage(f))
    ensures var (o1, r) := GenBitfieldLoad(o, addr, f);
            Ran(code, base, o, m, k, o1, m1) && m1.mem == m.mem && Value(m1, r) == Some(BitfieldLoad(m.mem, a, f))
  {
    hide Ran, LoadValue, Bitwise, Wrap64, Pow2, BitMask, InBounds, EmitShift, ShiftRight;
    var o1 := EmitNew(o, Load(o.nt, addr, Storage(f), IsSigned(f.ty.kind)));
    var (o2, v) := EmitShift(o1, Shr, Temp(o.nt), f);
    var o3 := EmitNew(o2, Bin(And, o2.nt, v, Imm(BitMask(f.width)), false));
    MaskIsWord(f.width);
    var ma := UnitRuns(code, base, o, addr, f, m, a);
    var raw := LoadValue(m.mem, a, f);
    var k2, mb := ShiftRuns(code, base, o1, Shr, Temp(o.nt), f, ma, raw);
    m1 := BinRuns(code, base, o2, mb, And, v, Imm(BitMask(f.width)), ShiftRight(f, raw), BitMask(f.width));
    RanThen(code, base, o, m, 1, o1, ma, k2, o2, mb);
    RanThen(code, base, o, m, 1 + k2, o2, mb, 1, o3, m1);
    k := 1 + k2 + 1;
  }

  /** The first two instructions of a store: load and clear the field's bits. */
  function StoreClear(o: Out, addr: Operand, f: Field): (r: Out)
    requires Accessible(f) && f.width > 0
    ensures Extends(o, r) && r.nt == o.nt + 2
  {
    var o1 := EmitNew(o, Load(o.nt, addr, Storage(f), IsSigned(f.ty.kind)));
    EmitNew(o1, Bin(And, o1.nt, Temp(o.nt), Imm(-ShiftedMask(f) - 1), false))
  }

  /** And the third: clip the value. */
  function StoreHead(o: Out, addr: Operand, f: Field, value: Operand): (r: Out)
    requires Accessible(f) && f.width > 0
    ensures Extends(o, r) && r.nt == o.nt + 3
  {
    var o2 := StoreClear(o, addr, f);
    EmitNew(o2, Bin(And, o2.nt, value, Imm(BitMask(f.width)), false))
  }

  lemma ClearRuns(code: seq<Instr>, base: seq<int>, o: Out, addr: Operand, f: Field, m: State, a: int) returns (m1: State)
    requires Accessible(f) && f.width > 0 && m.pc == |o.code| && Value(m, addr) == Some(a) && InBounds(m.mem, a, Storage(f))
    requires StoreClear(o, addr, f).code <= code
    ensures Ran(code, base, o, m, 2, StoreClear(o, addr, f), m1) && m1.mem == m.mem && m1.pc == |StoreClear(o, addr, f).code|
    ensures Value(m1, Temp(o.nt + 1)) == Some(And64(LoadValue(m.mem, a, f), -ShiftedMask(f) - 1))
  {
    hide Ran, LoadValue, InBounds, Bitwise, Wrap64, ShiftedMask;
    var keep, raw := -ShiftedMask(f) - 1, LoadValue(m.mem, a, f);
    var o1 := EmitNew(o, Load(o.nt, addr, Storage(f), IsSigned(f.ty.kind)));
    var ma := UnitRuns(code, base, o, addr, f, m, a);
    m1 := BinRuns(code, base, o1, ma, And, Temp(o.nt), Imm(keep), raw, keep);
    RanThen(code, base, o, m, 1, o1, ma, 1, StoreClear(o, addr, f), m1);
  }

  lemma StoreHeadRuns(code: seq<Instr>, base: seq<int>, o: Out, addr: Operand, f: Field, v: Operand, m: State, a: int, x: int)
    returns (m1: State)
    requires Accessible(f) && f.width > 0 && StoreHead(o, addr, f, v).code <= code && m.pc == |o.code|
    requires Value(m, addr) == Some(a) && InBounds(m.mem, a, Storage(f)) && Value(m, v) == Some(x) && Below(v, o.nt)
    ensures Ran(code, base, o, m, 3, StoreHead(o, addr, f, v), m1) && m1.mem == m.mem
    ensures Value(m1, Temp(o.nt + 1)) == Some(And64(LoadValue(m.mem, a, f), -ShiftedMask(f) - 1))
    ensures Value(m1, Temp(o.nt + 2)) == Some(And64(x, BitMask(f.width)))
  {
    hide Ran, Accessible, LoadValue, InBounds, Bitwise, Wrap64, BitMask, ShiftedMask, StoreClear;
    MaskIsWord(f.width);
    var o2 := StoreClear(o, addr, f);
    var o3 := EmitNew(o2, Bin(And, o2.nt, v, Imm(BitMask(f.width)), false));
    var mb := ClearRuns(code, base, o, addr, f, m, a);
    RanKeeps(code, base, o, m, 2, o2, mb, v);
    m1 := BinRuns(code, base, o2, mb, And, v, Imm(BitMask(f.width)), x, BitMask(f.width));
    RanThen(code, base, o, m, 2, o2, mb, 1, o3, m1);
    RanKeeps(code, base, o2, mb, 1, o3, m1, Temp(o.nt + 1));
  }

  /** The rest of a store: shift the clipped value into place, combine, write. */
  function StoreTail(o3: Out, o: Out, addr: Operand, f: Field): (r: Out)
    requires Accessible(f) && f.width > 0
    ensures Extends(o3, r)
  {
    var (o4, w) := EmitShift(o3, Shl, Temp(o.nt + 2), f);
    var o5 := EmitNew(o4, Bin(Or, o4.nt, Temp(o.nt + 1), w, false));
    Emit(o5, Store(addr, Temp(o4.nt), Storage(f)))
  }

  lemma StoreSplits(o: Out, addr: Operand, f: Field, v: Operand)
    requires Accessible(f) && f.width > 0
    ensures GenBitfieldStore(o, addr, f, v) == StoreTail(StoreHead(o, addr, f, v), o, addr, f)
  {
  }

  lemma StoreTailRuns(code: seq<Instr>, base: seq<int>, o3: Out, o: Out, addr: Operand, f: Field, m: State,
                      a: int, kept: int, clip: int) returns (k: nat, m1: State)
    requires Accessible(f) && f.width > 0 && StoreTail(o3, o, addr, f).code <= code && m.pc == |o3.code|
    requires o3.nt == o.nt + 3 && Value(m, addr) == Some(a) && Below(addr, o.nt) && InBounds(m.mem, a, Storage(f))
    requires Value(m, Temp(o.nt + 1)) == Some(kept) && Value(m, Temp(o.nt + 2)) == Some(clip)
    ensures Ran(code, base, o3, m, k, StoreTail(o3, o, addr, f), m1)
    ensures m1.mem == Write(m.mem, a, Encode(Storage(f), Wrap64(Bitwise(BitOr, 63, kept, ShiftLeft(f, clip)))))
  {
    hide Ran, InBounds, Bitwise, Wrap64, Pow2, Write, Encode, ShiftLeft, EmitShift;
    var (o4, w) := EmitShift(o3, Shl, Temp(o.nt + 2), f);
    var o5 := EmitNew(o4, Bin(Or, o4.nt, Temp(o.nt + 1), w, false));
    var o6 := Emit(o5, Store(addr, Temp(o4.nt), Storage(f)));
    var k2, ma := ShiftRuns(code, base, o3, Shl, Temp(o.nt + 2), f, m, clip);
    RanKeeps(code, base, o3, m, k2, o4, ma, Temp(o.nt + 1));
    var mb := BinRuns(code, base, o4, ma, Or, Temp(o.nt + 1), w, kept, ShiftLeft(f, clip));
    RanThen(code, base, o3, m, k2, o4, ma, 1, o5, mb);
    RanKeeps(code, base, o3, m, k2 + 1, o5, mb, addr);
    var next := Wrap64(Bitwise(BitOr, 63, kept, ShiftLeft(f, clip)));
    m1 := WriteRuns(code, base, o5, addr, Temp(o4.nt), Storage(f), mb, a, next);
    RanThen(code, base, o3, m, k2 + 1, o5, mb, 1, o6, m1);
    k := k2 + 2;
  }

  /** Running the emitted store replaces the storage unit as `BitfieldStore` says. */
  lemma StoreRuns(code: seq<Instr>, base: seq<int>, o: Out, addr: Operand, f: Field, v: Operand, m: State, a: int, x: int)
    returns (k: nat, m1: State)
    requires Accessible(f) && f.width > 0 && GenBitfieldStore(o, addr, f, v).code <= code && m.pc == |o.code|
    requires Value(m, addr) == Some(a) && Below(addr, o.nt) && InBounds(m.mem, a, Storage(f))
    requires Value(m, v) == Some(x) && Below(v, o.nt)
    ensures Ran(code, base, o, m, k, GenBitfieldStore(o, addr, f, v), m1)
    ensures m1.mem == BitfieldStore(m.mem, a, f, x)
  {
    hide Ran, Accessible, LoadValue, InBounds, Bitwise, Wrap64, BitMask, ShiftedMask, Write, Encode, GenBitfieldStore,
         StoreTail, StoreHead, And64, ShiftLeft;
    var o3 := StoreHead(o, addr, f, v);
    StoreSplits(o, addr, f, v);
    var ma := StoreHeadRuns(code, base, o, addr, f, v, m, a, x);
    RanKeeps(code, base, o, m, 3, o3, ma, addr);
    var k2, mb := StoreTailRuns(code, base, o3, o, addr, f, ma, a, And64(LoadValue(m.mem, a, f), -ShiftedMask(f) - 1),
                                And64(x, BitMask(f.width)));
    k, m1 := 3 + k2, mb;
    RanThen(code, base, o, m, 3, o3, ma, k2, GenBitfieldStore(o, addr, f, v), m1);
  }

  // ----- bits of memory -----

  /** The number in bits `start .. start + w` of the object at `base`. */
  function FieldValue(mem: Mem, base: int, start: nat, w: nat): (v: int)
    ensures 0 <= v < Pow2(w)
    decreases w
  {
    if w == 0 then 0 else Bool(MemBit(mem, base, start)) + 2 * FieldValue(mem, base, start + 1, w - 1)
  }

  lemma ConsBit(b: bool, x: int, i: nat)
    ensures BitAt(Bool(b) + 2 * x, i) == if i == 0 then b else BitAt(x, i - 1)
  {
    assert (Bool(b) + 2 * x) / 2 == x && (Bool(b) + 2 * x) % 2 == Bool(b);
  }

  lemma {:induction false} FieldValueBit(mem: Mem, base: int, start: nat, w: nat, i: nat)
    ensures BitAt(FieldValue(mem, base, start, w), i) == (i < w && MemBit(mem, base, start + i))
    decreases w
  {
    hide MemBit, BitAt;
    if w == 0 {
      ZeroBits(i);
    } else {
      ConsBit(MemBit(mem, base, start), FieldValue(mem, base, start + 1, w - 1), i);
      if i > 0 {
        FieldValueBit(mem, base, start + 1, w - 1, i - 1);
      }
    }
  }

  /** A value is the field's when its bits are. */
  lemma FieldValueIs(mem: Mem, base: int, start: nat, w: nat, v: int)
    requires forall i: nat :: i < w ==> MemBit(mem, base, start + i) == BitAt(v, i)
    ensures FieldValue(mem, base, start, w) == v % Pow2(w)
  {
    hide MemBit;
    forall i: nat | i <= w
      ensures BitAt(FieldValue(mem, base, start, w), i) == BitAt(v % Pow2(w), i)
    {
      FieldValueBit(mem, base, start, w, i);
      ModBits(w, v, i);
    }
    SameBits(w, FieldValue(mem, base, start, w), v % Pow2(w));
  }

  /** Memory that agrees on the bits of a field agrees on its value. */
  lemma FieldValueKept(mem: Mem, mem1: Mem, base: int, start: nat, w: nat)
    requires forall i: nat :: start <= i < start + w ==> MemBit(mem1, base, i) == MemBit(mem, base, i)
    ensures FieldValue(mem1, base, start, w) == FieldValue(mem, base, start, w)
  {
    hide MemBit;
    var v := FieldValue(mem, base, start, w);
    forall i: nat | i < w
      ensures MemBit(mem1, base, start + i) == BitAt(v, i)
    {
      FieldValueBit(mem, base, start, w, i);
      assert MemBit(mem1, base, start + i) == MemBit(mem, base, start + i);
    }
    FieldValueIs(mem1, base, start, w, v);
    SmallMod(v, Pow2(w));
  }

  lemma SmallMod(v: int, p: int)
    requires 0 <= v < p
    ensures v % p == v
  {
  }

  // ----- one access -----

  lemma LoadBits(mem: Mem, a: int, f: Field, i: nat)
    requires Accessible(f) && InBounds(mem, a, Storage(f)) && i < 8 * Storage(f)
    ensures BitAt(LoadValue(mem, a, f), i) == MemBit(mem, a, i)
  {
    hide BitAt, DecodeS, DecodeU;
    var bs := Read(mem, a, Storage(f));
    DecodeSBit(bs, i);
    DecodeUBit(bs, i);
    assert bs[i / 8] == mem[a + i / 8];
  }

  lemma LoadIsWord(mem: Mem, a: int, f: Field)
    requires Accessible(f) && InBounds(mem, a, Storage(f))
    ensures Int64(LoadValue(mem, a, f))
  {
    hide DecodeS, DecodeU, Read;
    var bs := Read(mem, a, Storage(f));
    DecodeRange(bs);
    assert Pow256(1) == 256 && Pow256(2) == 256 * 256 && Pow256(4) == 0x1_0000_0000;
    assert Pow256(7) == 256 * 256 * 256 * Pow256(4);
  }

  lemma AndBit(x: int, y: int, i: nat)
    requires Int64(x) && Int64(y)
    ensures BitAt(And64(x, y), i) == (BitAt(x, i) && BitAt(y, i))
  {
    hide Bitwise, BitAt;
    Pow63();
    BitwiseBit(BitAnd, 63, x, y, i);
  }

  lemma OrBit(x: int, y: int, i: nat)
    requires Int64(x) && Int64(y)
    ensures BitAt(Wrap64(Bitwise(BitOr, 63, x, y)), i) == (BitAt(x, i) || BitAt(y, i))
  {
    hide Bitwise, BitAt;
    Pow63();
    BitwiseBit(BitOr, 63, x, y, i);
  }

  /** Among the 64 bits of a word, the mask selects the low `w`, except for width 63. */
  lemma MaskBits(w: nat, i: nat)
    requires 1 <= w <= 64 && i < 64
    ensures BitAt(BitMask(w), i) == (i < w || w == 63)
  {
    hide BitAt;
    if w < 63 {
      MaskBit(w, i);
    } else {
      assert BitAt(-1, i) by { SignBit(0, -1, i); }
    }
  }

  lemma ShiftRightBits(f: Field, x: int, i: nat)
    requires Accessible(f) && f.width > 0 && Int64(x)
    ensures Int64(ShiftRight(f, x))
    ensures i + f.bitOffset < 64 ==> BitAt(ShiftRight(f, x), i) == BitAt(x, i + f.bitOffset)
    ensures i < 64 && i + f.bitOffset >= 63 ==> BitAt(ShiftRight(f, x), i) == (x < 0)
  {
    hide BitAt, Pow2;
    Pow63();
    if f.bitOffset > 0 {
      assert f.bitOffset % 64 == f.bitOffset;
      ShrBit(x, f.bitOffset, i);
      if i < 64 { WrapBits(x / Pow2(f.bitOffset), i); }
    }
    if i + f.bitOffset >= 63 {
      SignBit(63, x, i + f.bitOffset);
    }
  }

  lemma ShiftLeftBits(f: Field, x: int, i: nat)
    requires Accessible(f) && f.width > 0 && Int64(x) && i < 64
    ensures Int64(ShiftLeft(f, x))
    ensures BitAt(ShiftLeft(f, x), i) == (i >= f.bitOffset && BitAt(x, i - f.bitOffset))
  {
    hide BitAt, Pow2;
    if f.bitOffset > 0 {
      assert f.bitOffset % 64 == f.bitOffset;
      ShlBit(x, f.bitOffset, i);
      WrapBits(x * Pow2(f.bitOffset), i);
    }
  }

  lemma LoadBitParts(mem: Mem, a: int, f: Field, i: nat)
    requires Accessible(f) && f.width > 0 && InBounds(mem, a, Storage(f)) && i < 64
    ensures Int64(LoadValue(mem, a, f)) && Int64(BitfieldLoad(mem, a, f))
    ensures BitAt(BitfieldLoad(mem, a, f), i) ==
            (BitAt(ShiftRight(f, LoadValue(mem, a, f)), i) && (i < f.width || f.width == 63))
  {
    hide BitAt, BitMask, LoadValue, ShiftRight, And64, Pow2, Bitwise, Wrap64;
    var raw := LoadValue(mem, a, f);
    LoadIsWord(mem, a, f);
    MaskIsWord(f.width);
    FieldShape(f);
    MaskBits(f.width, i);
    ShiftRightBits(f, raw, i);
    AndBit(ShiftRight(f, raw), BitMask(f.width), i);
  }

  /** The emitted load, bit by bit; for width 63 the sign of the shifted word is not masked off. */
  lemma BitfieldLoadBit(mem: Mem, a: int, f: Field, i: nat)
    requires Accessible(f) && f.width > 0 && InBounds(mem, a, Storage(f)) && i < 64
    ensures i < f.width ==> BitAt(BitfieldLoad(mem, a, f), i) == MemBit(mem, a, f.bitOffset + i)
    ensures i >= f.width ==> BitAt(BitfieldLoad(mem, a, f), i) == (f.width == 63 && LoadValue(mem, a, f) < 0)
    ensures Int64(BitfieldLoad(mem, a, f))
  {
    hide Accessible, Storage, InBounds, BitAt, LoadValue, ShiftRight, MemBit, BitfieldLoad;
    LoadBitParts(mem, a, f, i);
    FieldShape(f);
    ShiftRightBits(f, LoadValue(mem, a, f), i);
    if i < f.width {
      LoadBits(mem, a, f, f.bitOffset + i);
    }
  }

  lemma SameWord(x: int, v: int)
    requires Int64(x) && forall i: nat :: i <= 63 ==> BitAt(x, i) == BitAt(Wrap64(v), i)
    ensures x == Wrap64(v)
  {
    hide BitAt, Wrap64, Pow2;
    Pow63();
    SameBits(63, x, Wrap64(v));
  }

  lemma FitsWord(v: int, w: nat)
    requires 0 <= v < Pow2(w) && w <= 62
    ensures Int64(v)
  {
    hide Pow2;
    Pow63();
    Pow2Mono(w, 63);
  }

  /** What a read returns: the field's bits, as a 64-bit value. */
  lemma BitfieldReads(mem: Mem, a: int, f: Field)
    requires Accessible(f) && f.width > 0 && InBounds(mem, a, Storage(f)) && f.width != 63
    ensures BitfieldLoad(mem, a, f) == Wrap64(FieldValue(mem, a, f.bitOffset, f.width))
    ensures f.width <= 62 ==> BitfieldLoad(mem, a, f) == FieldValue(mem, a, f.bitOffset, f.width)
  {
    hide Accessible, Storage, InBounds, BitfieldLoad, BitAt, MemBit, FieldValue, Pow2, Wrap64;
    FieldShape(f);
    var r, v := BitfieldLoad(mem, a, f), FieldValue(mem, a, f.bitOffset, f.width);
    BitfieldLoadBit(mem, a, f, 63);
    forall i: nat | i <= 63
      ensures BitAt(r, i) == BitAt(Wrap64(v), i)
    {
      BitfieldLoadBit(mem, a, f, i);
      FieldValueBit(mem, a, f.bitOffset, f.width, i);
      WrapBits(v, i);
    }
    SameWord(r, v);
    if f.width <= 62 {
      FitsWord(v, f.width);
    }
  }

  /** The bits that a store keeps of the unit. */
  lemma KeptBit(f: Field, current: int, i: nat)
    requires Accessible(f) && f.width > 0 && Int64(current) && i < 64
    ensures BitAt(And64(current, -ShiftedMask(f) - 1), i)
            == (BitAt(current, i) && !(i >= f.bitOffset && (i - f.bitOffset < f.width || f.width == 63)))
  {
    hide Accessible, BitAt, ShiftedMask, And64;
    ShiftedMaskBit(f, i);
    ComplementBit(ShiftedMask(f), i);
    AndBit(current, -ShiftedMask(f) - 1, i);
  }

  /** The bits that a store puts in. */
  lemma ClipBit(f: Field, value: int, i: nat)
    requires Accessible(f) && f.width > 0 && Int64(value) && i < 64
    ensures Int64(ShiftLeft(f, And64(value, BitMask(f.width))))
    ensures BitAt(ShiftLeft(f, And64(value, BitMask(f.width))), i)
            == (i >= f.bitOffset && BitAt(value, i - f.bitOffset) && (i - f.bitOffset < f.width || f.width == 63))
  {
    hide Accessible, BitAt, BitMask, And64, ShiftLeft;
    FieldShape(f);
    MaskIsWord(f.width);
    ShiftLeftBits(f, And64(value, BitMask(f.width)), i);
    if i >= f.bitOffset {
      AndBit(value, BitMask(f.width), i - f.bitOffset);
      MaskBits(f.width, i - f.bitOffset);
    }
  }

  /** The unit that a store writes: the field's bits from the value, the others as they were. */
  lemma NextUnitBit(f: Field, current: int, value: int, i: nat)
    requires Accessible(f) && f.width > 0 && Int64(current) && Int64(value) && i < 64
    requires f.width == 63 ==> f.bitOffset > 0
    ensures BitAt(NextUnit(f, current, value), i) ==
            if f.bitOffset <= i < f.bitOffset + f.width then BitAt(value, i - f.bitOffset) else BitAt(current, i)
  {
    hide Accessible, Storage, BitAt, BitMask, ShiftLeft, ShiftedMask, Bitwise, And64, Wrap64, Pow2;
    FieldShape(f);
    KeptBit(f, current, i);
    ClipBit(f, value, i);
    OrBit(And64(current, -ShiftedMask(f) - 1), ShiftLeft(f, And64(value, BitMask(f.width))), i);
  }

  lemma ShiftedMaskBit(f: Field, i: nat)
    requires Accessible(f) && f.width > 0 && i < 64
    ensures BitAt(ShiftedMask(f), i) == (i >= f.bitOffset && (i - f.bitOffset < f.width || f.width == 63))
  {
    hide BitAt, BitMask, Pow2;
    WrapBits(BitMask(f.width) * Pow2(f.bitOffset), i);
    ShlBit(BitMask(f.width), f.bitOffset, i);
    if i >= f.bitOffset {
      MaskBits(f.width, i - f.bitOffset);
    }
  }

  /** Writing the bytes of a value sets its bits and no others. */
  lemma WriteBit(mem: Mem, a: int, n: nat, x: int, i: nat)
    requires InBounds(mem, a, n)
    ensures MemBit(Write(mem, a, Encode(n, x)), a, i) == if i < 8 * n then BitAt(x, i) else MemBit(mem, a, i)
  {
    hide BitAt;
    if i < 8 * n {
      EncodeBit(n, x, i / 8, i % 8);
      assert a + i / 8 in mem;
    }
  }

  /**
   The emitted store, on every bit of the storage unit: the field gets the value's bits and the
   neighbours keep theirs.
   */
  lemma BitfieldStoreBit(mem: Mem, a: int, f: Field, value: int, i: nat)
    requires Accessible(f) && f.width > 0 && InBounds(mem, a, Storage(f)) && Int64(value)
    requires f.width == 63 ==> f.bitOffset > 0
    ensures MemBit(BitfieldStore(mem, a, f, value), a, i) ==
            if f.bitOffset <= i < f.bitOffset + f.width then BitAt(value, i - f.bitOffset) else MemBit(mem, a, i)
  {
    hide Accessible, BitAt, NextUnit, LoadValue, Encode, Write, MemBit;
    var raw := LoadValue(mem, a, f);
    LoadIsWord(mem, a, f);
    FieldShape(f);
    WriteBit(mem, a, Storage(f), NextUnit(f, raw, value), i);
    if i < 8 * Storage(f) {
      NextUnitBit(f, raw, value, i);
      LoadBits(mem, a, f, i);
    }
  }

  // ----- the limits of the mask -----

  predicate KeepsBit(f: Field, mem: Mem, v: int, i: nat)
    requires Accessible(f) && f.width > 0
  {
    InBounds(mem, 0, Storage(f)) && Int64(v) && i < 8 * Storage(f) && !(f.bitOffset <= i < f.bitOffset + f.width) ==>
      MemBit(BitfieldStore(mem, 0, f, v), 0, i) == MemBit(mem, 0, i)
  }

  /** A store leaves every bit of the storage unit outside the field alone. */
  ghost predicate StoreKeepsNeighbours(f: Field)
    requires Accessible(f) && f.width > 0
  {
    forall mem: Mem, v: int, i: nat {:trigger KeepsBit(f, mem, v, i)} :: KeepsBit(f, mem, v, i)
  }

  predicate ReadsBits(f: Field, mem: Mem)
    requires Accessible(f) && f.width > 0
  {
    InBounds(mem, 0, Storage(f)) ==>
      BitfieldLoad(mem, 0, f) == Wrap64(FieldValue(mem, 0, f.bitOffset, f.width))
  }

  /** A read returns the number its bits spell. */
  ghost predicate ReadReturnsBits(f: Field)
    requires Accessible(f) && f.width > 0
  {
    forall mem: Mem {:trigger ReadsBits(f, mem)} :: ReadsBits(f, mem)
  }

  /** Eight zero bytes, and the same with the top bit set. */
  function ZeroWord(): (m: Mem)
    ensures InBounds(m, 0, 8)
  {
    map[0 := 0, 1 := 0, 2 := 0, 3 := 0, 4 := 0, 5 := 0, 6 := 0, 7 := 0]
  }

  function TopBitWord(): (m: Mem)
    ensures InBounds(m, 0, 8)
  {
    map[0 := 0, 1 := 0, 2 := 0, 3 := 0, 4 := 0, 5 := 0, 6 := 0, 7 := 128]
  }

  /**
   `bit_mask(63)` is all ones instead of 63 ones. A store is right exactly when that spills over
   nothing: unless the width is 63 and the field starts at bit 0.
   */
  lemma StoreExact(f: Field)
    requires Accessible(f) && f.width > 0
    ensures StoreKeepsNeighbours(f) <==> !(f.width == 63 && f.bitOffset == 0)
  {
    hide BitfieldStore, MemBit, Accessible, Storage, InBounds;
    FieldShape(f);
    if f.width == 63 && f.bitOffset == 0 {
      SpillOver(f);
    } else {
      forall mem: Mem, v: int, i: nat
        ensures KeepsBit(f, mem, v, i)
      {
        if InBounds(mem, 0, Storage(f)) && Int64(v) {
          BitfieldStoreBit(mem, 0, f, v, i);
        }
      }
    }
  }

  lemma SpillOver(f: Field)
    requires Accessible(f) && f.width == 63 && f.bitOffset == 0
    ensures !StoreKeepsNeighbours(f)
  {
    var mem := ZeroWord();
    var raw, v := LoadValue(mem, 0, f), -1;
    assert Storage(f) == 8;
    LoadIsWord(mem, 0, f);
    MaskIsWord(63);
    assert ShiftedMask(f) == -1 by { assert Pow2(0) == 1; }
    assert !MemBit(mem, 0, 63) by { assert mem[7] == 0; ZeroBits(7); }
    assert Int64(v) && 63 < 8 * Storage(f) && !(f.bitOffset <= 63 < f.bitOffset + f.width);
    hide BitAt, LoadValue, Encode, Write, Bitwise, Pow2;
    SignBit63(v);
    AndBit(v, -1, 63);
    OrBit(And64(raw, -ShiftedMask(f) - 1), And64(v, -1), 63);
    WriteBit(mem, 0, 8, NextUnit(f, raw, v), 63);
    assert MemBit(BitfieldStore(mem, 0, f, v), 0, 63);
    assert !KeepsBit(f, mem, v, 63);
  }

  lemma SignBit63(x: int)
    requires Int64(x)
    ensures BitAt(x, 63) == (x < 0)
  {
    hide BitAt, Pow2;
    Pow63();
    SignBit(63, x, 63);
  }

  lemma {:induction false} ZeroBits(i: nat)
    ensures !BitAt(0, i)
  {
    if i > 0 {
      ZeroBits(i - 1);
    }
  }

  /** A read is right exactly when the width is not 63: then the sign of the unit is not masked off. */
  lemma ReadExact(f: Field)
    requires Accessible(f) && f.width > 0
    ensures ReadReturnsBits(f) <==> f.width != 63
  {
    hide BitfieldLoad, FieldValue, Accessible, Storage, InBounds, Wrap64;
    FieldShape(f);
    if f.width == 63 {
      SignShows(f);
    } else {
      forall mem: Mem
        ensures ReadsBits(f, mem)
      {
        if InBounds(mem, 0, Storage(f)) {
          BitfieldReads(mem, 0, f);
        }
      }
    }
  }

  lemma SignShows(f: Field)
    requires Accessible(f) && f.width == 63
    ensures !ReadReturnsBits(f)
  {
    hide BitAt, LoadValue, BitfieldLoad, FieldValue, Pow2;
    var mem := TopBitWord();
    assert Storage(f) == 8;
    LoadBits(mem, 0, f, 63);
    LoadIsWord(mem, 0, f);
    SignBit63(LoadValue(mem, 0, f));
    assert mem[7] == 128 && BitAt(128, 7) by { TopByte(); }
    assert MemBit(mem, 0, 63);
    BitfieldLoadBit(mem, 0, f, 63);
    SignBit63(BitfieldLoad(mem, 0, f));
    var v := FieldValue(mem, 0, f.bitOffset, 63);
    Pow63();
    assert v < 0x8000_0000_0000_0000;
    assert Wrap64(v) == v >= 0;
    assert !ReadsBits(f, mem);
  }

  lemma TopByte()
    ensures BitAt(128, 7)
  {
    assert BitAt(1, 0) && BitAt(2, 1) && BitAt(4, 2) && BitAt(8, 3) && BitAt(16, 4) && BitAt(32, 5) && BitAt(64, 6);
  }

  // ----- any sequence of writes to a sealed struct -----

  datatype WriteOp = WriteOp(k: nat, v: int)

  /** What sealing guarantees of the fields of an object of `size` bytes. */
  predicate LaidOut(gs: seq<Field>, size: int) {
    && (forall j, k :: 0 <= j < k < |gs| && gs[j].width != 0 && gs[k].width != 0 ==> BitEnd(gs[j]) <= BitStart(gs[k]))
    && (forall k :: 0 <= k < |gs| && gs[k].width != 0 ==> 0 <= gs[k].offset && gs[k].offset + Sizeof(gs[k].ty) <= size)
  }

  lemma SealedLaidOut(t: Type)
    requires Complete(t) && t.Struct?
    ensures LaidOut(t.fields, t.size)
  {
    hide BitStart, BitEnd, Lawful, End, AlignUp, LeastMultiple;
    SizeIsAligned(t);
    StructLayout(t.fields);
    forall k | 0 <= k < |t.fields| && t.fields[k].width != 0
      ensures 0 <= t.fields[k].offset && t.fields[k].offset + Sizeof(t.fields[k].ty) <= t.size
    {
      assert InObject(t.fields[k], t.size);
    }
  }

  /** A field that this section writes; width 63 at bit 0 is the exception found above. */
  predicate Writable(f: Field) {
    Accessible(f) && (f.width == 63 ==> f.bitOffset > 0)
  }

  /** Field `k` is writable and inside the object. */
  predicate Usable(gs: seq<Field>, size: int, k: nat) {
    && k < |gs| && Writable(gs[k])
    && 0 <= gs[k].offset && gs[k].offset + Storage(gs[k]) <= size
  }

  /** Sealing puts every writable field inside. */
  lemma SealedUsable(t: Type, k: nat)
    requires Complete(t) && t.Struct? && k < |t.fields| && Writable(t.fields[k])
    ensures Usable(t.fields, t.size, k)
  {
    SealedLaidOut(t);
  }

  lemma UsableIs(gs: seq<Field>, size: int, k: nat)
    requires Usable(gs, size, k)
    ensures k < |gs| && Writable(gs[k]) && Accessible(gs[k]) && gs[k].offset >= 0
  {
  }

  function FieldStart(f: Field): (i: nat)
    requires Accessible(f) && f.offset >= 0
    ensures i == BitStart(f) && i + FieldBits(f) == BitEnd(f)
  {
    8 * f.offset + if f.width > 0 then f.bitOffset else 0
  }

  predicate ObjectAt(mem: Mem, obj: int, size: int) {
    size >= 0 && InBounds(mem, obj, size)
  }

  lemma UnitIn(gs: seq<Field>, size: int, k: nat, mem: Mem, obj: int)
    requires Usable(gs, size, k) && ObjectAt(mem, obj, size)
    ensures InBounds(mem, obj + gs[k].offset, Storage(gs[k]))
  {
  }

  /** A write to field `k` of the object at `obj`. */
  function FieldStore(gs: seq<Field>, size: int, k: nat, mem: Mem, obj: int, v: int): (mem1: Mem)
    requires Usable(gs, size, k) && ObjectAt(mem, obj, size)
    ensures ObjectAt(mem1, obj, size) && mem1.Keys == mem.Keys
  {
    var f := gs[k];
    UnitIn(gs, size, k, mem, obj);
    if f.width > 0 then BitfieldStore(mem, obj + f.offset, f, v)
    else Write(mem, obj + f.offset, Encode(Storage(f), v))
  }

  predicate GoodWrites(gs: seq<Field>, size: int, ws: seq<WriteOp>) {
    forall i :: 0 <= i < |ws| ==> Usable(gs, size, ws[i].k) && Int64(ws[i].v)
  }

  /** The memory after the writes, first to last. */
  function Apply(gs: seq<Field>, size: int, mem: Mem, obj: int, ws: seq<WriteOp>): (mem1: Mem)
    requires GoodWrites(gs, size, ws) && ObjectAt(mem, obj, size)
    ensures ObjectAt(mem1, obj, size) && mem1.Keys == mem.Keys
    decreases |ws|
  {
    if ws == [] then mem
    else
      var last := ws[|ws| - 1];
      FieldStore(gs, size, last.k, Apply(gs, size, mem, obj, ws[..|ws| - 1]), obj, last.v)
  }

  function LastWrite(ws: seq<WriteOp>, k: nat): Option<int> {
    if ws == [] then None
    else if ws[|ws| - 1].k == k then Some(ws[|ws| - 1].v)
    else LastWrite(ws[..|ws| - 1], k)
  }

  /** The number that the bits of field `k` spell. */
  function Spells(gs: seq<Field>, size: int, k: nat, mem: Mem, obj: int): int
    requires Usable(gs, size, k)
  {
    FieldValue(mem, obj, FieldStart(gs[k]), FieldBits(gs[k]))
  }

  /** A bit of the object seen from the storage unit of a field. */
  lemma UnitBit(mem: Mem, obj: int, off: nat, i: nat)
    ensures MemBit(mem, obj, 8 * off + i) == MemBit(mem, obj + off, i)
  {
    assert (8 * off + i) / 8 == off + i / 8 && (8 * off + i) % 8 == i % 8;
  }

  lemma BelowKept(mem: Mem, obj: int, off: nat, bs: seq<byte>, i: nat)
    requires i < 8 * off
    ensures MemBit(Write(mem, obj + off, bs), obj, i) == MemBit(mem, obj, i)
  {
    hide BitAt;
    assert obj + i / 8 < obj + off;
  }

  /** One write, on every bit of the object. */
  lemma StoreObjectBit(gs: seq<Field>, size: int, k: nat, mem: Mem, obj: int, v: int, i: nat)
    requires Usable(gs, size, k) && ObjectAt(mem, obj, size) && Int64(v)
    ensures var f := gs[k];
            MemBit(FieldStore(gs, size, k, mem, obj, v), obj, i) ==
            if FieldStart(f) <= i < FieldStart(f) + FieldBits(f) then BitAt(v, i - FieldStart(f)) else MemBit(mem, obj, i)
  {
    hide BitAt, MemBit, Encode, Write, NextUnit, LoadValue;
    var f := gs[k];
    UnitIn(gs, size, k, mem, obj);
    var a, mem1 := obj + f.offset, FieldStore(gs, size, k, mem, obj, v);
    if i < 8 * f.offset {
      BelowKept(mem, obj, f.offset, Encode(Storage(f), if f.width > 0 then NextUnit(f, LoadValue(mem, a, f), v) else v), i);
    } else {
      var j := i - 8 * f.offset;
      UnitBit(mem1, obj, f.offset, j);
      UnitBit(mem, obj, f.offset, j);
      if f.width > 0 {
        FieldShape(f);
        BitfieldStoreBit(mem, a, f, v, j);
      } else {
        WriteBit(mem, a, Storage(f), v, j);
      }
    }
  }

  lemma OneWrite(gs: seq<Field>, size: int, j: nat, mem: Mem, obj: int, v: int, k: nat)
    requires LaidOut(gs, size) && Usable(gs, size, j) && Usable(gs, size, k) && ObjectAt(mem, obj, size) && Int64(v)
    ensures Spells(gs, size, k, FieldStore(gs, size, j, mem, obj, v), obj) ==
            if j == k then v % Pow2(FieldBits(gs[k])) else Spells(gs, size, k, mem, obj)
  {
    hide FieldValue, MemBit, BitAt, Pow2, FieldStore, FieldStart, FieldBits, ObjectAt;
    var f, g := gs[k], gs[j];
    var mem1 := FieldStore(gs, size, j, mem, obj, v);
    if j == k {
      forall i: nat | i < FieldBits(f)
        ensures MemBit(mem1, obj, FieldStart(f) + i) == BitAt(v, i)
      {
        StoreObjectBit(gs, size, j, mem, obj, v, FieldStart(f) + i);
      }
      FieldValueIs(mem1, obj, FieldStart(f), FieldBits(f), v);
    } else {
      assert BitEnd(g) <= BitStart(f) || BitEnd(f) <= BitStart(g);
      hide BitStart, BitEnd, LaidOut, Accessible;
      forall i: nat | FieldStart(f) <= i < FieldStart(f) + FieldBits(f)
        ensures MemBit(mem1, obj, i) == MemBit(mem, obj, i)
      {
        StoreObjectBit(gs, size, j, mem, obj, v, i);
      }
      FieldValueKept(mem, mem1, obj, FieldStart(f), FieldBits(f));
    }
  }

  /**
   Bit-field store refinement: after any sequence of writes to the fields of a laid-out object, the
   bits of each field spell the last value written to it, modulo two to the number of its bits, and
   a field never written spells what it did at the start.
   */
  lemma {:induction false} LastWriteWins(gs: seq<Field>, size: int, mem: Mem, obj: int, ws: seq<WriteOp>, k: nat)
    requires LaidOut(gs, size) && GoodWrites(gs, size, ws) && ObjectAt(mem, obj, size) && Usable(gs, size, k)
    ensures Spells(gs, size, k, Apply(gs, size, mem, obj, ws), obj) ==
            match LastWrite(ws, k)
            case Some(v) => v % Pow2(FieldBits(gs[k]))
            case None => Spells(gs, size, k, mem, obj)
    decreases |ws|
  {
    hide Spells, Pow2, FieldStore, LaidOut, ObjectAt, Usable, FieldBits;
    if ws != [] {
      var last, prev := ws[|ws| - 1], ws[..|ws| - 1];
      LastWriteWins(gs, size, mem, obj, prev, k);
      OneWrite(gs, size, last.k, Apply(gs, size, mem, obj, prev), obj, last.v, k);
    }
  }

  lemma BitsAreWidth(f: Field)
    requires Accessible(f) && f.width > 0
    ensures FieldBits(f) == f.width
  {
  }

  /** What the emitted load of a bit-field returns is the number its bits spell. */
  lemma LoadSpells(gs: seq<Field>, size: int, k: nat, mem: Mem, obj: int)
    requires Usable(gs, size, k) && 0 < gs[k].width != 63 && ObjectAt(mem, obj, size)
    ensures InBounds(mem, obj + gs[k].offset, Storage(gs[k]))
    ensures var r := BitfieldLoad(mem, obj + gs[k].offset, gs[k]);
            && r == Wrap64(Spells(gs, size, k, mem, obj))
            && (gs[k].width <= 62 ==> r == Spells(gs, size, k, mem, obj))
  {
    hide FieldValue, BitfieldLoad, Wrap64, Pow2, Accessible, Storage, InBounds, ObjectAt, LoadValue;
    var f := gs[k];
    BitsAreWidth(f);
    UnitIn(gs, size, k, mem, obj);
    FieldShape(f);
    BitfieldReads(mem, obj + f.offset, f);
    FieldValueMoves(mem, obj, f.offset, f.bitOffset, f.width);
  }

  lemma {:induction false} FieldValueMoves(mem: Mem, obj: int, off: nat, start: nat, w: nat)
    ensures FieldValue(mem, obj, 8 * off + start, w) == FieldValue(mem, obj + off, start, w)
    decreases w
  {
    hide MemBit;
    if w > 0 {
      UnitBit(mem, obj, off, start);
      FieldValueMoves(mem, obj, off, start + 1, w - 1);
      assert 8 * off + start + 1 == 8 * off + (start + 1);
    }
  }

  /** Reading after any writes to the fields of a laid-out object gives the last value written, as a 64-bit value. */
  lemma ReadsBack(gs: seq<Field>, size: int, mem: Mem, obj: int, ws: seq<WriteOp>, k: nat)
    requires LaidOut(gs, size) && GoodWrites(gs, size, ws) && ObjectAt(mem, obj, size)
    requires Usable(gs, size, k) && 0 < gs[k].width != 63
    ensures var f, mem1 := gs[k], Apply(gs, size, mem, obj, ws);
            && InBounds(mem, obj + f.offset, Storage(f)) && InBounds(mem1, obj + f.offset, Storage(f))
            && BitfieldLoad(mem1, obj + f.offset, f) ==
               match LastWrite(ws, k)
               case Some(v) => Wrap64(v % Pow2(f.width))
               case None => BitfieldLoad(mem, obj + f.offset, f)
  {
    hide BitfieldLoad, Spells, Pow2, LaidOut, Usable, Apply, ObjectAt, Accessible, GoodWrites, FieldBits, InBounds,
      Storage, LastWrite, Wrap64;
    UsableIs(gs, size, k);
    BitsAreWidth(gs[k]);
    LastWriteWins(gs, size, mem, obj, ws, k);
    LoadSpells(gs, size, k, mem, obj);
    LoadSpells(gs, size, k, Apply(gs, size, mem, obj, ws), obj);
  }

  // ----- the code for a sequence of assignments -----

  /** The assignment of a value known before to field `k` of an object. */
  datatype Assign = Assign(k: nat, v: Operand)

  /** Below its fields' width the assignment is a bit-field store; other fields are stored whole. */
  function GenAssign(o: Out, obj: Operand, f: Field, v: Operand): (r: Out)
    requires Accessible(f)
    ensures Extends(o, r)
  {
    var o1 := EmitNew(o, Bin(Add, o.nt, obj, Imm(f.offset), false));
    if f.width > 0 then GenBitfieldStore(o1, Temp(o.nt), f, v) else Emit(o1, Store(Temp(o.nt), v, Storage(f)))
  }

  predicate Assigns(gs: seq<Field>, ws: seq<Assign>) {
    forall i :: 0 <= i < |ws| ==> ws[i].k < |gs| && Writable(gs[ws[i].k])
  }

  predicate AllUsable(gs: seq<Field>, size: int, ws: seq<Assign>) {
    forall i :: 0 <= i < |ws| ==> Usable(gs, size, ws[i].k)
  }

  function GenAssigns(o: Out, obj: Operand, gs: seq<Field>, ws: seq<Assign>): (r: Out)
    requires Assigns(gs, ws)
    ensures Extends(o, r)
    decreases |ws|
  {
    if ws == [] then o
    else
      var n := |ws| - 1;
      GenAssign(GenAssigns(o, obj, gs, ws[..n]), obj, gs[ws[n].k], ws[n].v)
  }

  function GenRead(o: Out, obj: Operand, f: Field): (r: (Out, Operand))
    requires Accessible(f)
    ensures Extends(o, r.0)
  {
    var o1 := EmitNew(o, Bin(Add, o.nt, obj, Imm(f.offset), false));
    GenBitfieldLoad(o1, Temp(o.nt), f)
  }

  /** The values of the assignments are 64-bit values known in `m`. */
  predicate Known(m: State, nt: nat, ws: seq<Assign>) {
    forall i :: 0 <= i < |ws| ==> Below(ws[i].v, nt) && Value(m, ws[i].v).Some? && Int64(Value(m, ws[i].v).value)
  }

  /** The writes that the assignments stand for. */
  function Writes(m: State, nt: nat, ws: seq<Assign>): (r: seq<WriteOp>)
    requires Known(m, nt, ws)
    ensures |r| == |ws|
  {
    seq(|ws|, i requires 0 <= i < |ws| => WriteOp(ws[i].k, Value(m, ws[i].v).value))
  }

  /** `t` is a complete struct with these fields and this size. */
  predicate Sealed(t: Type, gs: seq<Field>, size: int) {
    Complete(t) && t.Struct? && t.fields == gs && t.size == size
  }

  lemma WritesAreGood(gs: seq<Field>, size: int, m: State, nt: nat, ws: seq<Assign>)
    requires AllUsable(gs, size, ws) && Known(m, nt, ws)
    ensures GoodWrites(gs, size, Writes(m, nt, ws))
  {
    hide Usable;
  }

  lemma AddressRuns(code: seq<Instr>, base: seq<int>, o: Out, obj: Operand, gs: seq<Field>, size: int, k: nat,
                    m: State, a: int) returns (m1: State)
    requires Usable(gs, size, k) && ObjectAt(m.mem, a, size) && Int64(a) && Int64(a + size)
    requires EmitNew(o, Bin(Add, o.nt, obj, Imm(gs[k].offset), false)).code <= code && m.pc == |o.code|
    requires Value(m, obj) == Some(a) && size < 0x8000_0000
    ensures var o1 := EmitNew(o, Bin(Add, o.nt, obj, Imm(gs[k].offset), false));
            && Ran(code, base, o, m, 1, o1, m1) && m1.pc == |o1.code| && m1.mem == m.mem
            && Value(m1, Temp(o.nt)) == Some(a + gs[k].offset) && InBounds(m.mem, a + gs[k].offset, Storage(gs[k]))
  {
    hide Ran, Accessible, InBounds;
    UnitIn(gs, size, k, m.mem, a);
    m1 := BinRuns(code, base, o, m, Add, obj, Imm(gs[k].offset), a, gs[k].offset);
  }

  lemma AssignRuns(code: seq<Instr>, base: seq<int>, o: Out, obj: Operand, gs: seq<Field>, size: int, k: nat, v: Operand,
                   m: State, a: int, x: int) returns (n: nat, m1: State)
    requires Usable(gs, size, k) && ObjectAt(m.mem, a, size) && Int64(a) && Int64(a + size) && size < 0x8000_0000
    requires GenAssign(o, obj, gs[k], v).code <= code && m.pc == |o.code|
    requires Value(m, obj) == Some(a) && Value(m, v) == Some(x) && Below(v, o.nt)
    ensures Ran(code, base, o, m, n, GenAssign(o, obj, gs[k], v), m1)
    ensures m1.mem == FieldStore(gs, size, k, m.mem, a, x)
  {
    hide Ran, Accessible, Usable, ObjectAt, InBounds, Write, Encode, BitfieldStore, GenBitfieldStore;
    UsableIs(gs, size, k);
    var f := gs[k];
    var o1 := EmitNew(o, Bin(Add, o.nt, obj, Imm(f.offset), false));
    var ma := AddressRuns(code, base, o, obj, gs, size, k, m, a);
    RanKeeps(code, base, o, m, 1, o1, ma, v);
    if f.width > 0 {
      n, m1 := StoreRuns(code, base, o1, Temp(o.nt), f, v, ma, a + f.offset, x);
    } else {
      n := 1;
      m1 := WriteRuns(code, base, o1, Temp(o.nt), v, Storage(f), ma, a + f.offset, x);
    }
    RanThen(code, base, o, m, 1, o1, ma, n, GenAssign(o, obj, f, v), m1);
    n := 1 + n;
  }

  /** Running the code for a sequence of assignments applies the writes in turn. */
  lemma {:induction false} AssignsRun(code: seq<Instr>, base: seq<int>, o: Out, obj: Operand, gs: seq<Field>, size: int,
                                      ws: seq<Assign>, m: State, a: int) returns (n: nat, m1: State)
    requires Assigns(gs, ws) && AllUsable(gs, size, ws)
    requires Known(m, o.nt, ws) && GoodWrites(gs, size, Writes(m, o.nt, ws))
    requires ObjectAt(m.mem, a, size) && Int64(a) && Int64(a + size) && size < 0x8000_0000
    requires GenAssigns(o, obj, gs, ws).code <= code && m.pc == |o.code|
    requires Value(m, obj) == Some(a) && Below(obj, o.nt)
    ensures Ran(code, base, o, m, n, GenAssigns(o, obj, gs, ws), m1)
    ensures m1.mem == Apply(gs, size, m.mem, a, Writes(m, o.nt, ws))
    decreases |ws|
  {
    hide Ran, Usable, ObjectAt, FieldStore, GenAssign;
    if ws == [] {
      n, m1 := 0, m;
      RanNothing(code, base, o, m);
    } else {
      var last, prev := ws[|ws| - 1], ws[..|ws| - 1];
      WritesAreGood(gs, size, m, o.nt, prev);
      assert Writes(m, o.nt, ws)[..|ws| - 1] == Writes(m, o.nt, prev);
      var o1 := GenAssigns(o, obj, gs, prev);
      var n1, ma := AssignsRun(code, base, o, obj, gs, size, prev, m, a);
      RanKeeps(code, base, o, m, n1, o1, ma, obj);
      RanKeeps(code, base, o, m, n1, o1, ma, last.v);
      var n2, mb := AssignRuns(code, base, o1, obj, gs, size, last.k, last.v, ma, a, Value(m, last.v).value);
      n, m1 := n1 + n2, mb;
      RanThen(code, base, o, m, n1, o1, ma, n2, GenAssigns(o, obj, gs, ws), m1);
    }
  }

  lemma ReadRuns(code: seq<Instr>, base: seq<int>, o: Out, obj: Operand, gs: seq<Field>, size: int, k: nat,
                 m: State, a: int) returns (n: nat, m1: State)
    requires Usable(gs, size, k) && gs[k].width > 0 && ObjectAt(m.mem, a, size) && Int64(a) && Int64(a + size)
    requires GenRead(o, obj, gs[k]).0.code <= code && m.pc == |o.code| && Value(m, obj) == Some(a) && size < 0x8000_0000
    ensures InBounds(m.mem, a + gs[k].offset, Storage(gs[k]))
    ensures var (o1, r) := GenRead(o, obj, gs[k]);
            && Ran(code, base, o, m, n, o1, m1) && m1.mem == m.mem
            && Value(m1, r) == Some(BitfieldLoad(m.mem, a + gs[k].offset, gs[k]))
  {
    hide Ran, Accessible, Usable, ObjectAt, InBounds, BitfieldLoad, GenBitfieldLoad;
    UsableIs(gs, size, k);
    var f := gs[k];
    var o1 := EmitNew(o, Bin(Add, o.nt, obj, Imm(f.offset), false));
    var ma := AddressRuns(code, base, o, obj, gs, size, k, m, a);
    n, m1 := LoadRuns(code, base, o1, Temp(o.nt), f, ma, a + f.offset);
    RanThen(code, base, o, m, 1, o1, ma, n, GenRead(o, obj, f).0, m1);
    n := 1 + n;
  }

  lemma AssignsThenRead(code: seq<Instr>, base: seq<int>, o: Out, obj: Operand, gs: seq<Field>, size: int,
                        ws: seq<Assign>, k: nat, m: State, a: int) returns (n: nat, m1: State)
    requires Assigns(gs, ws) && AllUsable(gs, size, ws) && Known(m, o.nt, ws) && Usable(gs, size, k) && gs[k].width > 0
    requires GenRead(GenAssigns(o, obj, gs, ws), obj, gs[k]).0.code <= code && m.pc == |o.code|
    requires Value(m, obj) == Some(a) && Below(obj, o.nt) && GoodWrites(gs, size, Writes(m, o.nt, ws))
    requires ObjectAt(m.mem, a, size) && Int64(a) && Int64(a + size) && size < 0x8000_0000
    ensures InBounds(Apply(gs, size, m.mem, a, Writes(m, o.nt, ws)), a + gs[k].offset, Storage(gs[k]))
    ensures var (o1, r) := GenRead(GenAssigns(o, obj, gs, ws), obj, gs[k]);
            && Ran(code, base, o, m, n, o1, m1)
            && Value(m1, r)
               == Some(BitfieldLoad(Apply(gs, size, m.mem, a, Writes(m, o.nt, ws)), a + gs[k].offset, gs[k]))
  {
    hide Ran, ObjectAt, Assigns, AllUsable, Known, InBounds, Storage, Apply, Writes, GoodWrites, GenAssigns,
         BitfieldLoad, Usable, Accessible, GenRead;
    UsableIs(gs, size, k);
    var o1 := GenAssigns(o, obj, gs, ws);
    var n1, ma := AssignsRun(code, base, o, obj, gs, size, ws, m, a);
    RanKeeps(code, base, o, m, n1, o1, ma, obj);
    var n2, mb := ReadRuns(code, base, o1, obj, gs, size, k, ma, a);
    RanThen(code, base, o, m, n1, o1, ma, n2, GenRead(o1, obj, gs[k]).0, mb);
    n, m1 := n1 + n2, mb;
  }

  /**
   The whole property for a sealed struct, on the machine: after running the code for any sequence
   of assignments to its fields, the code that reads a bit-field returns the last value assigned to
   it, modulo two to its width, or what it would have returned at the start.
   */
  lemma ReadsLastWrite(code: seq<Instr>, base: seq<int>, o: Out, obj: Operand, gs: seq<Field>, size: int,
                       ws: seq<Assign>, k: nat, m: State, a: int, t: Type) returns (n: nat, m1: State)
    requires Assigns(gs, ws) && Known(m, o.nt, ws) && k < |gs| && Accessible(gs[k]) && 0 < gs[k].width != 63
    requires GenRead(GenAssigns(o, obj, gs, ws), obj, gs[k]).0.code <= code && m.pc == |o.code|
    requires Value(m, obj) == Some(a) && Below(obj, o.nt)
    requires ObjectAt(m.mem, a, size) && Int64(a) && Int64(a + size)
    requires Sealed(t, gs, size)
    ensures InBounds(m.mem, a + gs[k].offset, Storage(gs[k]))
    ensures var (o1, r) := GenRead(GenAssigns(o, obj, gs, ws), obj, gs[k]);
            && Ran(code, base, o, m, n, o1, m1)
            && Value(m1, r) == Some(match LastWrite(Writes(m, o.nt, ws), k)
                                    case Some(v) => Wrap64(v % Pow2(gs[k].width))
                                    case None => BitfieldLoad(m.mem, a + gs[k].offset, gs[k]))
  {
    hide Ran, ObjectAt, Assigns, AllUsable, Known, LaidOut, InBounds, Storage, LastWrite, Wrap64, Pow2, Apply, Writes,
         GoodWrites, GenAssigns, BitfieldLoad, Sealed, Usable, Accessible, GenRead;
    SealedFacts(t, gs, size, k);
    SealedAssigns(t, gs, size, ws);
    WritesAreGood(gs, size, m, o.nt, ws);
    ReadsBack(gs, size, m.mem, a, Writes(m, o.nt, ws), k);
    n, m1 := AssignsThenRead(code, base, o, obj, gs, size, ws, k, m, a);
  }

  lemma SealedFacts(t: Type, gs: seq<Field>, size: int, k: nat)
    requires Sealed(t, gs, size) && k < |gs| && Accessible(gs[k]) && gs[k].width != 63
    ensures LaidOut(gs, size) && size < 0x8000_0000 && Usable(gs, size, k)
  {
    hide Complete, LaidOut, Usable, Accessible;
    SealedLaidOut(t);
    StructSmall(t);
    SealedUsable(t, k);
  }

  lemma SealedAssigns(t: Type, gs: seq<Field>, size: int, ws: seq<Assign>)
    requires Sealed(t, gs, size) && Assigns(gs, ws)
    ensures AllUsable(gs, size, ws)
  {
    hide Complete, Usable, Writable;
    forall i | 0 <= i < |ws|
      ensures Usable(gs, size, ws[i].k)
    {
      SealedUsable(t, ws[i].k);
    }
  }

  lemma StructSmall(t: Type)
    requires Complete(t) && t.Struct?
    ensures t.size < 0x8000_0000
  {
  }

  lemma Remainder(v: int, p: int)
    requires p > 0
    ensures 0 <= v % p < p
  {
  }
}
