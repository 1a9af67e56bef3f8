/**
 Initializers of automatic objects: the stores that lowering emits, what running them leaves in the
 object, and when that agrees with the image of a static object.
 */
module InitCode {
  import opened Wrappers
  import opened Bits
  import opened Types
  import opened Layout
  import opened CompleteTypes
  import opened Ast
  import opened Members
  import opened Initializers
  import opened Ir
  import opened IrGen
  import opened StraightLine
  import opened IrGenerator

  /** No struct, union or array is initialized from an expression, which would be copied as a whole. */
  predicate NoCopies(t: Type, init: Init)
    decreases init, 1, 0
  {
    match init
    case Single(_) => t.Scalar?
    case Braces(items) =>
      if t.Array? || IsAggregate(t) then NoCopiesFrom(t, init, 0, Start(t))
      else t.Scalar? && (items == [] || NoCopies(t, items[0].init))
  }

  predicate NoCopiesFrom(t: Type, init: Init, k: nat, next: Next)
    requires Goes(t, next) && init.Braces? && k <= |init.items|
    decreases init, 0, |init.items| - k
  {
    k == |init.items| ||
    match Target(t, init.items[k], next)
    case Skip(n) => NoCopiesFrom(t, init, k + 1, n)
    case Stop => true
    case At(s, _, n) => NoCopies(s, init.items[k].init) && NoCopiesFrom(t, init, k + 1, n)
  }

  lemma {:induction false} BracedCopiesNothing(t: Type, init: Init)
    requires Fit(t) && Braced(t, init)
    ensures NoCopies(t, init)
    decreases init, 1, 0
  {
    if Listed(t, init) {
      BracedItems(t, init, 0);
    }
  }

  lemma {:induction false} BracedItems(t: Type, init: Init, k: nat)
    requires Fit(t) && Listed(t, init) && k <= |init.items|
    ensures Inside(t, NextPart(t, init, k)) && NoCopiesFrom(t, init, k, NextPart(t, init, k))
    decreases init, 0, |init.items| - k
  {
    hide Target, Fit, ItemPart, ItemOffset, RoomFor, NextPart;
    NextInside(t, init, k);
    if k < |init.items| {
      TargetIs(t, init, k);
      ItemFits(t, init, k);
      BracedCopiesNothing(ItemPart(t, init, k), init.items[k].init);
      BracedItems(t, init, k + 1);
    }
  }

  predicate PlainFields(fs: seq<Field>) {
    forall i :: 0 <= i < |fs| ==> Plain(fs[i].ty)
  }

  /** The loops go on among fields that literals can initialize. */
  predicate PlainNext(t: Type, next: Next) {
    Goes(t, next) && (next.Rest? ==> PlainFields(next.fields))
  }

  lemma {:induction false} FindPlain(t: Type, k: nat, x: string)
    requires IsAggregate(t) && k <= |t.fields| && Plain(t)
    ensures PlainFields(FindFieldFrom(t, k, x))
    decreases t, |t.fields| - k
  {
    if k < |t.fields| && t.fields[k].name != Some(x) {
      var f := t.fields[k];
      if f.name.None? && IsAggregate(f.ty) {
        FindPlain(f.ty, 0, x);
      }
      FindPlain(t, k + 1, x);
    }
  }

  lemma TargetPlain(t: Type, item: Item, next: Next)
    requires Plain(t) && PlainNext(t, next)
    ensures var w := Target(t, item, next); (w.At? ==> Plain(w.ty)) && (!w.Stop? ==> PlainNext(t, w.next))
  {
    hide FindFieldFrom, PartOffset;
    if IsAggregate(t) && item.at.Some? && item.at.value.Direct? {
      FindPlain(t, 0, item.at.value.name);
    }
  }

  lemma StartPlain(t: Type)
    requires Plain(t) && (t.Array? || IsAggregate(t))
    ensures PlainNext(t, Start(t))
  {
  }

  // ----- what is emitted -----

  /** The address of a part. Its pointer type always differs from the whole's, so it is always computed. */
  function GenAddrOffset(o: Out, addr: Operand, off: int): (r: (Out, Operand))
    requires Below(addr, o.nt)
    ensures Extends(o, r.0) && Below(r.1, r.0.nt) && Below(addr, r.0.nt)
  {
    (EmitNew(o, Bin(BinOp.Add, o.nt, addr, Imm(off), false)), Temp(o.nt))
  }

  function GenStoreAs(o: Out, addr: Operand, v: Operand, t: Type): (r: Out)
    requires t.Scalar?
    ensures Extends(o, r)
  {
    Emit(o, Store(addr, v, KindSize(t.kind)))
  }

  /** Zero every scalar of an object. */
  function GenZero(o: Out, addr: Operand, t: Type): (r: Out)
    requires Below(addr, o.nt) && Plain(t)
    ensures Extends(o, r)
    decreases t, 1, 0
  {
    if t.Scalar? then GenStoreAs(o, addr, Imm(0), t) else GenZeroParts(o, addr, t, 0)
  }

  function GenZeroParts(o: Out, addr: Operand, t: Type, p: nat): (r: Out)
    requires Below(addr, o.nt) && Plain(t) && !t.Scalar?
    ensures Extends(o, r)
    decreases t, 0, PartCount(t) - p
  {
    if p >= PartCount(t) then o
    else
      var (o1, a) := GenAddrOffset(o, addr, PartOffset(t, p));
      GenZeroParts(GenZero(o1, a, Part(t, p)), addr, t, p + 1)
  }

  function GenValue(scope: Scope, o: Out, addr: Operand, t: Type, e: Expr): (r: Out)
    requires t.Scalar? && ScopeBelow(scope, o.nt)
    ensures Extends(o, r)
  {
    var (o1, v) := GenExpr(scope, o, e);
    GenStoreAs(o1, addr, v, t)
  }

  function GenInit(scope: Scope, o: Out, addr: Operand, t: Type, init: Init): (r: Out)
    requires Below(addr, o.nt) && ScopeBelow(scope, o.nt) && Plain(t) && NoCopies(t, init)
    ensures Extends(o, r)
    decreases init, 1, 0
  {
    match init
    case Single(e) => GenValue(scope, o, addr, t, e)
    case Braces(items) =>
      var o1 := GenZero(o, addr, t);
      if !t.Scalar? then
        StartPlain(t);
        GenItems(scope, o1, addr, t, init, 0, Start(t))
      else if items == [] then o1
      else GenInit(scope, o1, addr, t, items[0].init)
  }

  function GenItems(scope: Scope, o: Out, addr: Operand, t: Type, init: Init, k: nat, next: Next): (r: Out)
    requires Below(addr, o.nt) && ScopeBelow(scope, o.nt) && Plain(t) && PlainNext(t, next)
    requires init.Braces? && k <= |init.items| && NoCopiesFrom(t, init, k, next)
    ensures Extends(o, r)
    decreases init, 0, |init.items| - k
  {
    if k == |init.items| then o
    else
      TargetPlain(t, init.items[k], next);
      match Target(t, init.items[k], next)
      case Skip(n) => GenItems(scope, o, addr, t, init, k + 1, n)
      case Stop => o
      case At(s, off, n) =>
        var (o1, a) := GenAddrOffset(o, addr, off);
        GenItems(scope, GenInit(scope, o1, a, s, init.items[k].init), addr, t, init, k + 1, n)
  }

  // ----- the generator's methods -----

  method GenAddr(g: Generator, addr: Operand, off: int) returns (a: Operand)
    requires Below(addr, g.nextTemp)
    modifies g`instrs, g`nextTemp
    ensures (g.Output(), a) == GenAddrOffset(old(g.Output()), addr, off)
    ensures g.nextTemp >= old(g.nextTemp) && (old(g.Valid()) ==> g.Valid())
  {
    var t := g.NewTemp();
    g.Emit(Bin(BinOp.Add, t, addr, Imm(off), false));
    a := Temp(t);
  }

  method GenZeroInitializer(g: Generator, addr: Operand, t: Type)
    requires Below(addr, g.nextTemp) && Plain(t)
    modifies g`instrs, g`nextTemp
    ensures g.Output() == GenZero(old(g.Output()), addr, t)
    ensures g.nextTemp >= old(g.nextTemp) && (old(g.Valid()) ==> g.Valid())
    decreases t
  {
    hide Extends;
    if t.Array? {
      var elemSize := if Sizeof(t.elem) <= 0 then 1 else Sizeof(t.elem);
      var i := 0;
      while i < t.count
        invariant i >= 0 && g.nextTemp >= old(g.nextTemp) && (old(g.Valid()) ==> g.Valid())
        invariant GenZeroParts(g.Output(), addr, t, i) == GenZero(old(g.Output()), addr, t)
      {
        var a := GenAddr(g, addr, i * elemSize);
        GenZeroInitializer(g, a, t.elem);
        i := i + 1;
      }
    } else if IsAggregate(t) {
      for j := 0 to |t.fields|
        invariant g.nextTemp >= old(g.nextTemp) && (old(g.Valid()) ==> g.Valid())
        invariant GenZeroParts(g.Output(), addr, t, j) == GenZero(old(g.Output()), addr, t)
      {
        var a := GenAddr(g, addr, t.fields[j].offset);
        GenZeroInitializer(g, a, t.fields[j].ty);
      }
    } else {
      g.Emit(Store(addr, Imm(0), KindSize(t.kind)));
    }
  }

  method GenInitializer(g: Generator, addr: Operand, t: Type, init: Init)
    requires Below(addr, g.nextTemp) && g.Valid() && Plain(t) && NoCopies(t, init)
    modifies g`instrs, g`nextTemp, g`nextLabel
    ensures g.Output() == GenInit(g.scope, old(g.Output()), addr, t, init) && g.Valid()
    ensures g.nextTemp >= old(g.nextTemp)
    decreases init, 1
  {
    if init.Single? {
      var v := g.GenExpr(init.e);
      g.Emit(Store(addr, v, KindSize(t.kind)));
      return;
    }
    GenZeroInitializer(g, addr, t);
    if t.Array? {
      GenArrayInitializer(g, addr, t, init);
    } else if IsAggregate(t) {
      GenAggregateInitializer(g, addr, t, init);
    } else if init.items != [] {
      GenInitializer(g, addr, t, init.items[0].init);
    }
  }

  /** One turn of either loop, when the item goes to an object of type `s` at offset `off`. */
  lemma GenItemsAt(scope: Scope, o: Out, addr: Operand, t: Type, init: Init, k: nat, next: Next, s: Type, off: int, n: Next)
    requires Below(addr, o.nt) && ScopeBelow(scope, o.nt) && Plain(t) && PlainNext(t, next)
    requires init.Braces? && k < |init.items| && NoCopiesFrom(t, init, k, next)
    requires Target(t, init.items[k], next) == At(s, off, n)
    ensures Plain(s) && NoCopies(s, init.items[k].init) && PlainNext(t, n) && NoCopiesFrom(t, init, k + 1, n)
    ensures var (o1, a) := GenAddrOffset(o, addr, off);
            GenItems(scope, o, addr, t, init, k, next)
            == GenItems(scope, GenInit(scope, o1, a, s, init.items[k].init), addr, t, init, k + 1, n)
  {
    hide Target, GenInit, Plain, Extends, NoCopies;
    TargetPlain(t, init.items[k], next);
  }

  lemma GenItemsSkip(scope: Scope, o: Out, addr: Operand, t: Type, init: Init, k: nat, next: Next, n: Next)
    requires Below(addr, o.nt) && ScopeBelow(scope, o.nt) && Plain(t) && PlainNext(t, next)
    requires init.Braces? && k < |init.items| && NoCopiesFrom(t, init, k, next)
    requires Target(t, init.items[k], next) == Skip(n)
    ensures PlainNext(t, n) && NoCopiesFrom(t, init, k + 1, n)
    ensures GenItems(scope, o, addr, t, init, k, next) == GenItems(scope, o, addr, t, init, k + 1, n)
  {
    hide Target, GenInit, Plain, Extends, NoCopies;
    TargetPlain(t, init.items[k], next);
  }

  method GenArrayInitializer(g: Generator, addr: Operand, t: Type, init: Init)
    requires Below(addr, g.nextTemp) && g.Valid() && Plain(t) && t.Array? && init.Braces?
    requires NoCopiesFrom(t, init, 0, Start(t))
    modifies g`instrs, g`nextTemp, g`nextLabel
    ensures PlainNext(t, Start(t)) && g.Output() == GenItems(g.scope, old(g.Output()), addr, t, init, 0, Start(t)) && g.Valid()
    ensures g.nextTemp >= old(g.nextTemp)
    decreases init, 0
  {
    hide Extends, GenInit, GenItems, NoCopies, NoCopiesFrom;
    var elemSize := if Sizeof(t.elem) <= 0 then 1 else Sizeof(t.elem);
    var next := 0;
    for k := 0 to |init.items|
      invariant g.nextTemp >= old(g.nextTemp) && g.Valid() && NoCopiesFrom(t, init, k, Elem(next))
      invariant GenItems(g.scope, g.Output(), addr, t, init, k, Elem(next))
                == GenItems(g.scope, old(g.Output()), addr, t, init, 0, Start(t))
    {
      var it := init.items[k];
      var index := next;
      if it.at.Some? {
        if it.at.value.Direct? {
          GenItemsSkip(g.scope, g.Output(), addr, t, init, k, Elem(next), Elem(next));
          continue;
        }
        index := ConstInt(it.at.value.e);
      }
      if index < 0 || index >= t.count {
        GenItemsSkip(g.scope, g.Output(), addr, t, init, k, Elem(next), Elem(index + 1));
        next := index + 1;
        continue;
      }
      GenItemsAt(g.scope, g.Output(), addr, t, init, k, Elem(next), t.elem, index * elemSize, Elem(index + 1));
      var a := GenAddr(g, addr, index * elemSize);
      GenInitializer(g, a, t.elem, it.init);
      next := index + 1;
    }
    GenItemsEnd(g.scope, g.Output(), addr, t, init, Elem(next));
  }

  lemma GenItemsEnd(scope: Scope, o: Out, addr: Operand, t: Type, init: Init, next: Next)
    requires Below(addr, o.nt) && ScopeBelow(scope, o.nt) && Plain(t) && PlainNext(t, next) && init.Braces?
    ensures NoCopiesFrom(t, init, |init.items|, next)
    ensures GenItems(scope, o, addr, t, init, |init.items|, next) == o
  {
  }

  lemma GenItemsStop(scope: Scope, o: Out, addr: Operand, t: Type, init: Init, k: nat, next: Next)
    requires Below(addr, o.nt) && ScopeBelow(scope, o.nt) && Plain(t) && PlainNext(t, next)
    requires init.Braces? && k < |init.items| && NoCopiesFrom(t, init, k, next)
    requires Target(t, init.items[k], next) == Stop
    ensures GenItems(scope, o, addr, t, init, k, next) == o
  {
    hide Target, Extends, NoCopies;
  }

  method GenAggregateInitializer(g: Generator, addr: Operand, t: Type, init: Init)
    requires Below(addr, g.nextTemp) && g.Valid() && Plain(t) && IsAggregate(t) && init.Braces?
    requires NoCopiesFrom(t, init, 0, Start(t))
    modifies g`instrs, g`nextTemp, g`nextLabel
    ensures PlainNext(t, Start(t)) && g.Output() == GenItems(g.scope, old(g.Output()), addr, t, init, 0, Start(t)) && g.Valid()
    ensures g.nextTemp >= old(g.nextTemp)
    decreases init, 0
  {
    hide FindField, Sizeof, Extends, GenInit, GenItems, NoCopies, NoCopiesFrom;
    StartPlain(t);
    var next := t.fields;
    for k := 0 to |init.items|
      invariant g.nextTemp >= old(g.nextTemp) && g.Valid()
      invariant PlainNext(t, Rest(next)) && NoCopiesFrom(t, init, k, Rest(next))
      invariant GenItems(g.scope, g.Output(), addr, t, init, k, Rest(next))
                == GenItems(g.scope, old(g.Output()), addr, t, init, 0, Start(t))
    {
      var it := init.items[k];
      var fs := next;
      if it.at.Some? {
        if it.at.value.Index? {
          GenItemsSkip(g.scope, g.Output(), addr, t, init, k, Rest(next), Rest(next));
          continue;
        }
        fs := FindField(t, it.at.value.name);
      }
      if fs == [] {
        GenItemsStop(g.scope, g.Output(), addr, t, init, k, Rest(next));
        return;
      }
      var f := fs[0];
      GenItemsAt(g.scope, g.Output(), addr, t, init, k, Rest(next), f.ty, f.offset, Rest(fs[1..]));
      var a := GenAddr(g, addr, f.offset);
      GenInitializer(g, a, f.ty, it.init);
      next := fs[1..];
    }
    GenItemsEnd(g.scope, g.Output(), addr, t, init, Rest(next));
  }

  // ----- running it -----

  lemma AddrRuns(code: seq<Instr>, base: seq<int>, o: Out, addr: Operand, off: int, m: State, a: int) returns (m1: State)
    requires Below(addr, o.nt) && m.pc == |o.code| && GenAddrOffset(o, addr, off).0.code <= code
    requires Value(m, addr) == Some(a) && Int64(off) && Int64(a + off)
    ensures Ran(code, base, o, m, 1, GenAddrOffset(o, addr, off).0, m1) && m1.mem == m.mem
    ensures Value(m1, GenAddrOffset(o, addr, off).1) == Some(a + off)
    ensures Value(m1, addr) == Some(a)
  {
    hide Ran;
    m1 := BinRuns(code, base, o, m, BinOp.Add, addr, Imm(off), a, off);
    RanKeeps(code, base, o, m, 1, GenAddrOffset(o, addr, off).0, m1, addr);
  }

  lemma StoreRuns(code: seq<Instr>, base: seq<int>, o: Out, addr: Operand, v: Operand, t: Type, m: State, a: int, x: int)
    returns (m1: State)
    requires t.Scalar? && Plain(t) && m.pc == |o.code| && GenStoreAs(o, addr, v, t).code <= code
    requires Value(m, addr) == Some(a) && Value(m, v) == Some(x) && InBounds(m.mem, a, KindSize(t.kind))
    ensures Ran(code, base, o, m, 1, GenStoreAs(o, addr, v, t), m1)
    ensures m1.mem == Write(m.mem, a, Encode(KindSize(t.kind), x)) && m1.temps == m.temps
  {
    hide Encode, Write, Ran;
    m1 := WriteRuns(code, base, o, addr, v, KindSize(t.kind), m, a, x);
  }

  lemma {:induction false} LiteralRuns(code: seq<Instr>, base: seq<int>, scope: Scope, o: Out, e: Expr, m: State)
    returns (k: nat, m1: State)
    requires Literal(e) && ScopeBelow(scope, o.nt) && m.pc == |o.code| && GenExpr(scope, o, e).0.code <= code
    ensures var (o1, v) := GenExpr(scope, o, e);
            Ran(code, base, o, m, k, o1, m1) && m1.mem == m.mem && Value(m1, v) == Some(ConstInt(e))
    decreases e
  {
    hide Steps, Step;
    match e
    case IntLit(n) =>
      k, m1 := 0, m;
      RanNothing(code, base, o, m);
    case Unary(op, a) =>
      var (o1, v) := GenExpr(scope, o, a);
      LiteralInt64(a);
      k, m1 := LiteralRuns(code, base, scope, o, a, m);
      if op == Minus {
        var m2 := NegRuns(code, base, o1, v, m1, ConstInt(a));
        RanThen(code, base, o, m, k, o1, m1, 1, EmitNew(o1, Un(Neg, o1.nt, v)), m2);
        k, m1 := k + 1, m2;
      } else {
        RanTemp(code, base, o, m, k, o1, m1);
      }
  }

  lemma NegRuns(code: seq<Instr>, base: seq<int>, o: Out, v: Operand, m: State, x: int) returns (m1: State)
    requires m.pc == |o.code| && EmitNew(o, Un(Neg, o.nt, v)).code <= code
    requires Value(m, v) == Some(x) && Int64(-x)
    ensures Ran(code, base, o, m, 1, EmitNew(o, Un(Neg, o.nt, v)), m1) && m1.mem == m.mem
    ensures Value(m1, Temp(o.nt)) == Some(-x)
  {
    hide Ran;
    var i := Un(Neg, o.nt, v);
    CodeAt(code, NewTemp(o), i);
    m1 := NewRuns(code, base, o, i, m, -x);
  }

  // ----- zeroing -----

  ghost function Zeroed(mem: Mem, a: int, t: Type): Mem {
    map x | x in mem :: if LeafByte(t, x - a) then 0 else mem[x]
  }

  ghost function ZeroedBelow(mem: Mem, a: int, t: Type, p: int): Mem
    requires p <= PartCount(t)
  {
    map x | x in mem :: if LeafBelow(t, p, x - a) then 0 else mem[x]
  }

  lemma {:induction false} EncodeZero(n: nat, i: nat)
    requires i < n
    ensures Encode(n, 0)[i] == 0
  {
    if i > 0 {
      EncodeZero(n - 1, i - 1);
    }
  }

  lemma ScalarZeroed(mem: Mem, a: int, t: Type)
    requires t.Scalar?
    ensures Write(mem, a, Encode(KindSize(t.kind), 0)) == Zeroed(mem, a, t)
  {
    hide Encode;
    forall i | 0 <= i < KindSize(t.kind)
      ensures Encode(KindSize(t.kind), 0)[i] == 0
    {
      EncodeZero(KindSize(t.kind), i);
    }
  }

  lemma ZeroNone(mem: Mem, a: int, t: Type)
    requires 0 <= PartCount(t)
    ensures ZeroedBelow(mem, a, t, 0) == mem
  {
  }

  lemma ZeroOne(mem: Mem, a: int, t: Type, p: nat)
    requires p < PartCount(t)
    ensures Zeroed(ZeroedBelow(mem, a, t, p), a + PartOffset(t, p), Part(t, p)) == ZeroedBelow(mem, a, t, p + 1)
  {
    hide LeafByte, PartOffset, Part;
    forall x | x in mem
      ensures LeafBelow(t, p + 1, x - a) <==> LeafBelow(t, p, x - a) || LeafByte(Part(t, p), x - (a + PartOffset(t, p)))
    {
      assert x - (a + PartOffset(t, p)) == x - a - PartOffset(t, p);
      assert Covers(t, p, x - a) <==> LeafByte(Part(t, p), x - a - PartOffset(t, p));
    }
  }

  lemma ZeroAll(mem: Mem, a: int, t: Type)
    requires !t.Scalar?
    ensures ZeroedBelow(mem, a, t, PartCount(t)) == Zeroed(mem, a, t)
  {
  }

  /** A region of memory that holds an object of type `t`, at addresses that do not wrap. */
  predicate Holds(mem: Mem, a: int, t: Type) {
    Sizeof(t) >= 0 && InBounds(mem, a, Sizeof(t)) && Int64(a) && Int64(a + Sizeof(t))
  }

  lemma HoldsPart(mem: Mem, a: int, t: Type, p: int)
    requires Fit(t) && 0 <= p < PartCount(t) && Holds(mem, a, t)
    ensures Fit(Part(t, p)) && Holds(mem, a + PartOffset(t, p), Part(t, p)) && Int64(PartOffset(t, p))
  {
    hide Fit, PartOffset, Part, Sizeof, InBounds;
    PartFits(t, p);
    FitSmall(t);
    PartInBounds(mem, a, Sizeof(t), PartOffset(t, p), Sizeof(Part(t, p)));
  }

  lemma FitSmall(t: Type)
    requires Fit(t)
    ensures 0 <= Sizeof(t) < LIMIT
  {
    SizeNonNegative(t);
  }

  lemma PartInBounds(mem: Mem, a: int, n: nat, off: nat, k: nat)
    requires InBounds(mem, a, n) && off + k <= n
    ensures InBounds(mem, a + off, k)
  {
  }

  lemma HoldsSame(mem: Mem, mem1: Mem, a: int, t: Type)
    requires Holds(mem, a, t) && mem1.Keys == mem.Keys
    ensures Holds(mem1, a, t)
  {
    assert forall x :: x in mem ==> x in mem1.Keys;
  }

  lemma {:induction false} ZeroRuns(code: seq<Instr>, base: seq<int>, o: Out, addr: Operand, t: Type, m: State, a: int)
    returns (k: nat, m1: State)
    requires Fit(t) && Below(addr, o.nt) && m.pc == |o.code| && GenZero(o, addr, t).code <= code
    requires Value(m, addr) == Some(a) && Holds(m.mem, a, t)
    ensures Ran(code, base, o, m, k, GenZero(o, addr, t), m1) && m1.mem == Zeroed(m.mem, a, t)
    decreases t, 1, 0
  {
    hide Complete, Ran, Zeroed, ZeroedBelow, Extends, Write, Encode;
    if t.Scalar? {
      assert Sizeof(t) == KindSize(t.kind);
      m1 := StoreRuns(code, base, o, addr, Imm(0), t, m, a, 0);
      k := 1;
      ScalarZeroed(m.mem, a, t);
    } else {
      ZeroNone(m.mem, a, t);
      k, m1 := ZeroPartsRun(code, base, o, addr, t, 0, m.mem, m, a);
    }
  }

  lemma ZeroPartsEnd(o: Out, addr: Operand, t: Type, p: nat)
    requires Below(addr, o.nt) && Plain(t) && !t.Scalar? && p >= PartCount(t)
    ensures GenZeroParts(o, addr, t, p) == o
  {
  }

  lemma ZeroPartsStep(o: Out, addr: Operand, t: Type, p: nat)
    requires Below(addr, o.nt) && Plain(t) && !t.Scalar? && p < PartCount(t) && Plain(Part(t, p))
    ensures var (o1, a) := GenAddrOffset(o, addr, PartOffset(t, p));
            GenZeroParts(o, addr, t, p) == GenZeroParts(GenZero(o1, a, Part(t, p)), addr, t, p + 1)
  {
    hide GenZero, PartOffset, Plain;
  }

  lemma {:induction false} ZeroPartsRun(code: seq<Instr>, base: seq<int>, o: Out, addr: Operand, t: Type, p: nat,
                                        first: Mem, m: State, a: int) returns (k: nat, m1: State)
    requires Fit(t) && !t.Scalar? && p <= PartCount(t) && Below(addr, o.nt) && m.pc == |o.code|
    requires GenZeroParts(o, addr, t, p).code <= code
    requires Value(m, addr) == Some(a) && Holds(first, a, t) && m.mem == ZeroedBelow(first, a, t, p)
    ensures Ran(code, base, o, m, k, GenZeroParts(o, addr, t, p), m1) && m1.mem == Zeroed(first, a, t)
    decreases t, 0, PartCount(t) - p
  {
    hide Fit, Ran, Zeroed, ZeroedBelow, Holds, GenAddrOffset, GenZeroParts, GenZero, PartOffset, Part, Plain;
    FitIsPlain(t);
    if p == PartCount(t) {
      k, m1 := 0, m;
      ZeroPartsEnd(o, addr, t, p);
      RanNothing(code, base, o, m);
      ZeroAll(first, a, t);
    } else {
      HoldsPart(first, a, t, p);
      FitIsPlain(Part(t, p));
      ZeroPartsStep(o, addr, t, p);
      var (o1, pa) := GenAddrOffset(o, addr, PartOffset(t, p));
      var o2 := GenZero(o1, pa, Part(t, p));
      ZeroedKeys(first, a, t, p);
      HoldsSame(first, m.mem, a + PartOffset(t, p), Part(t, p));
      OffsetInt64(first, a, t, p);
      var ma := AddrRuns(code, base, o, addr, PartOffset(t, p), m, a);
      RanEnds(code, base, o, m, 1, o1, ma);
      var kb, mb := ZeroRuns(code, base, o1, pa, Part(t, p), ma, a + PartOffset(t, p));
      RanKeeps(code, base, o1, ma, kb, o2, mb, addr);
      ZeroOne(first, a, t, p);
      var kc, mc := ZeroPartsRun(code, base, o2, addr, t, p + 1, first, mb, a);
      RanThen(code, base, o, m, 1, o1, ma, kb, o2, mb);
      RanThen(code, base, o, m, 1 + kb, o2, mb, kc, GenZeroParts(o, addr, t, p), mc);
      k, m1 := 1 + kb + kc, mc;
    }
  }

  lemma ZeroedKeys(mem: Mem, a: int, t: Type, p: int)
    requires p <= PartCount(t)
    ensures ZeroedBelow(mem, a, t, p).Keys == mem.Keys
  {
  }

  lemma OffsetInt64(mem: Mem, a: int, t: Type, p: int)
    requires Fit(t) && 0 <= p < PartCount(t) && Holds(mem, a, t)
    ensures Int64(a + PartOffset(t, p))
  {
    PartFits(t, p);
  }

  // ----- initializing -----

  ghost function Painted(mem: Mem, a: int, t: Type, init: Init): Mem
    requires Braced(t, init)
  {
    map x | x in mem :: if LeafByte(t, x - a) then Ref(t, init, x - a) else mem[x]
  }

  ghost function PaintedUpTo(mem: Mem, a: int, t: Type, init: Init, k: nat): Mem
    requires Listed(t, init) && k <= |init.items|
  {
    map x | x in mem :: if LeafByte(t, x - a) then RefUpTo(t, init, k, x - a) else mem[x]
  }

  lemma ScalarPainted(mem: Mem, a: int, t: Type, init: Init)
    requires t.Scalar? && Braced(t, init)
    ensures Write(mem, a, Encode(KindSize(t.kind), ScalarValue(init))) == Painted(mem, a, t, init)
  {
    hide Encode;
  }

  lemma PaintNone(mem: Mem, a: int, t: Type, init: Init)
    requires Listed(t, init)
    ensures PaintedUpTo(mem, a, t, init, 0) == Zeroed(mem, a, t)
  {
    hide LeafByte;
  }

  lemma PaintOne(mem: Mem, a: int, t: Type, init: Init, k: nat)
    requires Listed(t, init) && k < |init.items|
    ensures Painted(PaintedUpTo(mem, a, t, init, k), a + ItemOffset(t, init, k), ItemPart(t, init, k), init.items[k].init)
            == PaintedUpTo(mem, a, t, init, k + 1)
  {
    hide LeafByte, Ref;
    forall x | x in mem
      ensures ItemCovers(t, init, k, x - a) <==> LeafByte(ItemPart(t, init, k), x - (a + ItemOffset(t, init, k)))
      ensures ItemCovers(t, init, k, x - a) ==> LeafByte(t, x - a)
    {
      assert x - (a + ItemOffset(t, init, k)) == x - a - ItemOffset(t, init, k);
      if ItemCovers(t, init, k, x - a) {
        CoversLeaf(t, init, k, x - a);
      }
    }
  }

  lemma PaintAll(mem: Mem, a: int, t: Type, init: Init)
    requires Listed(t, init)
    ensures PaintedUpTo(mem, a, t, init, |init.items|) == Painted(mem, a, t, init)
  {
    hide LeafByte;
  }

  lemma PaintedKeys(mem: Mem, a: int, t: Type, init: Init, k: nat)
    requires Listed(t, init) && k <= |init.items|
    ensures PaintedUpTo(mem, a, t, init, k).Keys == mem.Keys
  {
  }

  /**
   Running the emitted code leaves in every scalar of the object the bytes C gives it, however often
   a subobject is initialized, and changes no other byte of memory.
   */
  lemma {:induction false} InitRuns(code: seq<Instr>, base: seq<int>, scope: Scope, o: Out, addr: Operand, t: Type,
                                    init: Init, m: State, a: int) returns (k: nat, m1: State)
    requires Fit(t) && Braced(t, init) && NoCopies(t, init)
    requires Below(addr, o.nt) && ScopeBelow(scope, o.nt) && m.pc == |o.code|
    requires GenInit(scope, o, addr, t, init).code <= code && Value(m, addr) == Some(a) && Holds(m.mem, a, t)
    ensures Ran(code, base, o, m, k, GenInit(scope, o, addr, t, init), m1) && m1.mem == Painted(m.mem, a, t, init)
    decreases init, 1, 0
  {
    hide Fit, Ran, Zeroed, Painted, PaintedUpTo, Holds, GenZero, GenItems, GenValue;
    FitIsPlain(t);
    match init
    case Single(e) =>
      k, m1 := ValueRuns(code, base, scope, o, addr, t, init, m, a);
    case Braces(items) =>
      var o1 := GenZero(o, addr, t);
      var kz, mz := ZeroRuns(code, base, o, addr, t, m, a);
      RanKeeps(code, base, o, m, kz, o1, mz, addr);
      if !t.Scalar? {
        PaintNone(m.mem, a, t, init);
        NextInside(t, init, 0);
        FitNext(t, NextPart(t, init, 0));
        var k2, m2 := ItemsRun(code, base, scope, o1, addr, t, init, 0, m.mem, mz, a);
        RanThen(code, base, o, m, kz, o1, mz, k2, GenInit(scope, o, addr, t, init), m2);
        k, m1 := kz + k2, m2;
      } else if items == [] {
        k, m1 := kz, mz;
        EmptyPainted(m.mem, a, t, init);
      } else {
        ZeroedSame(m.mem, a, t);
        HoldsSame(m.mem, mz.mem, a, t);
        var k2, m2 := ValueRuns(code, base, scope, o1, addr, t, items[0].init, mz, a);
        RanThen(code, base, o, m, kz, o1, mz, k2, GenInit(scope, o, addr, t, init), m2);
        k, m1 := kz + k2, m2;
        ScalarOver(m.mem, a, t, init);
      }
  }

  lemma ZeroedSame(mem: Mem, a: int, t: Type)
    ensures Zeroed(mem, a, t).Keys == mem.Keys
  {
  }

  lemma EmptyPainted(mem: Mem, a: int, t: Type, init: Init)
    requires t.Scalar? && Braced(t, init) && init == Braces([])
    ensures Zeroed(mem, a, t) == Painted(mem, a, t, init)
  {
    ScalarZeroed(mem, a, t);
    ScalarPainted(mem, a, t, init);
  }

  lemma ScalarOver(mem: Mem, a: int, t: Type, init: Init)
    requires t.Scalar? && Braced(t, init) && init.Braces? && |init.items| == 1
    ensures Painted(Zeroed(mem, a, t), a, t, init.items[0].init) == Painted(mem, a, t, init)
  {
    hide Encode;
  }

  lemma ValueRuns(code: seq<Instr>, base: seq<int>, scope: Scope, o: Out, addr: Operand, t: Type, init: Init,
                  m: State, a: int) returns (k: nat, m1: State)
    requires t.Scalar? && Plain(t) && init.Single? && Braced(t, init)
    requires Below(addr, o.nt) && ScopeBelow(scope, o.nt) && m.pc == |o.code|
    requires GenValue(scope, o, addr, t, init.e).code <= code && Value(m, addr) == Some(a) && Holds(m.mem, a, t)
    ensures Ran(code, base, o, m, k, GenValue(scope, o, addr, t, init.e), m1) && m1.mem == Painted(m.mem, a, t, init)
  {
    hide Ran, Painted, Encode, Write, GenStoreAs, GenExpr;
    var (o1, v) := GenExpr(scope, o, init.e);
    var k1, ma := LiteralRuns(code, base, scope, o, init.e, m);
    RanKeeps(code, base, o, m, k1, o1, ma, addr);
    assert Sizeof(t) == KindSize(t.kind);
    m1 := StoreRuns(code, base, o1, addr, v, t, ma, a, ConstInt(init.e));
    RanThen(code, base, o, m, k1, o1, ma, 1, GenStoreAs(o1, addr, v, t), m1);
    k := k1 + 1;
    ScalarPainted(m.mem, a, t, init);
  }

  lemma FitNext(t: Type, next: Next)
    requires Fit(t) && Inside(t, next)
    ensures Plain(t) && PlainNext(t, next)
  {
    hide Complete, Sizeof, Plain;
    if next.Rest? {
      forall i | 0 <= i < |next.fields| ensures Plain(next.fields[i].ty) {
        assert Room(t, next.fields[i].ty, next.fields[i].offset);
      }
    }
  }

  lemma HoldsItem(mem: Mem, mem1: Mem, a: int, t: Type, init: Init, k: nat)
    requires Fit(t) && Listed(t, init) && k < |init.items| && Holds(mem, a, t) && mem1.Keys == mem.Keys
    ensures var s, off := ItemPart(t, init, k), ItemOffset(t, init, k);
            Fit(s) && Holds(mem1, a + off, s) && Int64(off) && Int64(a + off)
  {
    hide Fit, Holds;
    assert Designates(t, init.items, k);
    var p := Position(t, init.items, k);
    HoldsPart(mem, a, t, p);
    OffsetInt64(mem, a, t, p);
    HoldsSame(mem, mem1, a + PartOffset(t, p), Part(t, p));
  }

  /** One item: the address of its part, and the part's own initializer. */
  lemma {:induction false} ItemRuns(code: seq<Instr>, base: seq<int>, scope: Scope, o: Out, addr: Operand, t: Type,
                                    init: Init, j: nat, first: Mem, m: State, a: int)
    returns (k: nat, m1: State, o2: Out)
    requires Fit(t) && Listed(t, init) && j < |init.items| && Inside(t, NextPart(t, init, j))
    requires Plain(t) && PlainNext(t, NextPart(t, init, j)) && NoCopiesFrom(t, init, j, NextPart(t, init, j))
    requires Below(addr, o.nt) && ScopeBelow(scope, o.nt) && m.pc == |o.code|
    requires GenItems(scope, o, addr, t, init, j, NextPart(t, init, j)).code <= code
    requires Value(m, addr) == Some(a) && Holds(first, a, t) && m.mem == PaintedUpTo(first, a, t, init, j)
    ensures Ran(code, base, o, m, k, o2, m1) && Value(m1, addr) == Some(a) && Extends(o, o2) && m1.pc == |o2.code|
    ensures Inside(t, NextPart(t, init, j + 1)) && PlainNext(t, NextPart(t, init, j + 1))
    ensures NoCopiesFrom(t, init, j + 1, NextPart(t, init, j + 1)) && o.nt <= o2.nt
    ensures GenItems(scope, o, addr, t, init, j, NextPart(t, init, j))
            == GenItems(scope, o2, addr, t, init, j + 1, NextPart(t, init, j + 1))
    ensures m1.mem == PaintedUpTo(first, a, t, init, j + 1)
    decreases init, 0, |init.items| - j, 0
  {
    hide Fit, Ran, Painted, PaintedUpTo, Holds, GenAddrOffset, GenInit, GenItems, Target, Braced, NextPart, RoomFor,
         ItemPart, ItemOffset, NoCopies, NoCopiesFrom, Plain, PlainFields, Position;
    TargetIs(t, init, j);
    var s, off, i := ItemPart(t, init, j), ItemOffset(t, init, j), init.items[j].init;
    GenItemsAt(scope, o, addr, t, init, j, NextPart(t, init, j), s, off, NextPart(t, init, j + 1));
    NextInside(t, init, j + 1);
    var (o1, pa) := GenAddrOffset(o, addr, off);
    o2 := GenInit(scope, o1, pa, s, i);
    PaintedKeys(first, a, t, init, j);
    HoldsItem(first, m.mem, a, t, init, j);
    var ma := AddrRuns(code, base, o, addr, off, m, a);
    RanEnds(code, base, o, m, 1, o1, ma);
    var kb, mb := InitRuns(code, base, scope, o1, pa, s, i, ma, a + off);
    RanKeeps(code, base, o1, ma, kb, o2, mb, addr);
    PaintOne(first, a, t, init, j);
    RanThen(code, base, o, m, 1, o1, ma, kb, o2, mb);
    k, m1 := 1 + kb, mb;
  }

  lemma {:induction false} ItemsRun(code: seq<Instr>, base: seq<int>, scope: Scope, o: Out, addr: Operand, t: Type,
                                    init: Init, j: nat, first: Mem, m: State, a: int) returns (k: nat, m1: State)
    requires Fit(t) && Listed(t, init) && j <= |init.items| && Inside(t, NextPart(t, init, j))
    requires Plain(t) && PlainNext(t, NextPart(t, init, j)) && NoCopiesFrom(t, init, j, NextPart(t, init, j))
    requires Below(addr, o.nt) && ScopeBelow(scope, o.nt) && m.pc == |o.code|
    requires GenItems(scope, o, addr, t, init, j, NextPart(t, init, j)).code <= code
    requires Value(m, addr) == Some(a) && Holds(first, a, t) && m.mem == PaintedUpTo(first, a, t, init, j)
    ensures Ran(code, base, o, m, k, GenItems(scope, o, addr, t, init, j, NextPart(t, init, j)), m1)
    ensures m1.mem == Painted(first, a, t, init)
    decreases init, 0, |init.items| - j, 1
  {
    hide Fit, Ran, Painted, PaintedUpTo, Holds, GenInit, GenItems, Braced, NextPart, Inside, NoCopiesFrom, Plain,
         PlainNext;
    if j == |init.items| {
      k, m1 := 0, m;
      GenItemsEnd(scope, o, addr, t, init, NextPart(t, init, j));
      RanNothing(code, base, o, m);
      PaintAll(first, a, t, init);
    } else {
      var rest := GenItems(scope, o, addr, t, init, j, NextPart(t, init, j));
      var kb, mb, o2 := ItemRuns(code, base, scope, o, addr, t, init, j, first, m, a);
      var kc, mc := ItemsRun(code, base, scope, o2, addr, t, init, j + 1, first, mb, a);
      RanThen(code, base, o, m, kb, o2, mb, kc, rest, mc);
      k, m1 := kb + kc, mc;
    }
  }

  // ----- a designator -----

  lemma HoldsRoom(mem: Mem, mem1: Mem, a: int, t: Type, s: Type, off: int)
    requires Fit(t) && Room(t, s, off) && Holds(mem, a, t) && mem1.Keys == mem.Keys
    ensures Holds(mem1, a + off, s) && Int64(off) && Int64(a + off)
  {
    hide Fit, Sizeof, InBounds;
    FitSmall(t);
    FitSmall(s);
    PartInBounds(mem, a, Sizeof(t), off, Sizeof(s));
    HoldsSame(mem, mem1, a + off, s);
  }

  /** The code for a list with one designated item, after the zeroing. */
  lemma GenDesignated(scope: Scope, o: Out, addr: Operand, t: Type, item: Item, p: seq<nat>)
    requires Below(addr, o.nt) && ScopeBelow(scope, o.nt) && Fit(t) && Plain(t) && IsAggregate(t)
    requires item.at.Some? && item.at.value.Direct? && First(t, item.at.value.name, p)
    requires NoCopies(t, Braces([item]))
    ensures var f, o1 := MemberAt(t, item.at.value.name, p), GenZero(o, addr, t);
            var (o2, a) := GenAddrOffset(o1, addr, f.offset);
            && Plain(f.ty) && NoCopies(f.ty, item.init) && Room(t, f.ty, f.offset)
            && GenInit(scope, o, addr, t, Braces([item])) == GenInit(scope, o2, a, f.ty, item.init)
  {
    hide Fit, Plain, Target, From, NotAfter, GenItems, GenZero, GenAddrOffset, NoCopiesFrom, Sizeof, MemberAt;
    var x, one, o1 := item.at.value.name, Braces([item]), GenZero(o, addr, t);
    var f := MemberAt(t, x, p);
    DesignatedTarget(t, item, p, Start(t));
    StartInside(t);
    TargetInside(t, item, Start(t));
    StartPlain(t);
    var n := Target(t, item, Start(t)).next;
    GenItemsAt(scope, o1, addr, t, one, 0, Start(t), f.ty, f.offset, n);
    var (o2, a) := GenAddrOffset(o1, addr, f.offset);
    GenItemsEnd(scope, GenInit(scope, o2, a, f.ty, item.init), addr, t, one, n);
  }

  /**
   The stores for a designated member go where the image of a static object has it: to the offset
   stored in its own field, which is its place exactly when the anonymous aggregates around it all
   start where the object does.
   */
  lemma DesignatedRuns(code: seq<Instr>, base: seq<int>, scope: Scope, o: Out, addr: Operand, t: Type, item: Item,
                       x: string, p: seq<nat>, m: State, a: int) returns (k: nat, m1: State)
    requires Fit(t) && Plain(t) && IsAggregate(t) && item.at == Some(Direct(x)) && First(t, x, p)
    requires Braced(MemberAt(t, x, p).ty, item.init) && NoCopies(t, Braces([item]))
    requires Below(addr, o.nt) && ScopeBelow(scope, o.nt) && m.pc == |o.code|
    requires GenInit(scope, o, addr, t, Braces([item])).code <= code && Value(m, addr) == Some(a) && Holds(m.mem, a, t)
    ensures Ran(code, base, o, m, k, GenInit(scope, o, addr, t, Braces([item])), m1)
    ensures m1.mem == Painted(Zeroed(m.mem, a, t), a + MemberAt(t, x, p).offset, MemberAt(t, x, p).ty, item.init)
    ensures MemberAt(t, x, p).offset == OffsetOf(t, x, p) <==> OuterAtZero(t, x, p)
  {
    hide Fit, Plain, Ran, NotAfter, Painted, Zeroed, Holds, GenInit, GenZero, GenAddrOffset, NoCopies, Braced, MemberAt,
         OffsetOf, OuterAtZero, Room;
    GenDesignated(scope, o, addr, t, item, p);
    var f, o1 := MemberAt(t, x, p), GenZero(o, addr, t);
    var (o2, pa) := GenAddrOffset(o1, addr, f.offset);
    var o3 := GenInit(scope, o2, pa, f.ty, item.init);
    var kz, mz := ZeroRuns(code, base, o, addr, t, m, a);
    RanKeeps(code, base, o, m, kz, o1, mz, addr);
    ZeroedSame(m.mem, a, t);
    HoldsRoom(m.mem, mz.mem, a, t, f.ty, f.offset);
    var ma := AddrRuns(code, base, o1, addr, f.offset, mz, a);
    RanEnds(code, base, o1, mz, 1, o2, ma);
    RoomFits(t, f.ty, f.offset);
    var kb, mb := InitRuns(code, base, scope, o2, pa, f.ty, item.init, ma, a + f.offset);
    RanThen(code, base, o, m, kz, o1, mz, 1, o2, ma);
    RanThen(code, base, o, m, kz + 1, o2, ma, kb, o3, mb);
    k, m1 := kz + 1 + kb, mb;
    DesignatedPlace(t, x, p);
  }

  lemma RoomFits(t: Type, s: Type, off: int)
    requires Room(t, s, off)
    ensures Fit(s)
  {
  }

  // ----- where the elements and the members are -----

  lemma SubobjectPainted(mem: Mem, a: int, t: Type, init: Init, k: nat, s: Type, off: int, x: int)
    requires Fit(t) && Latest(t, init, k) && Subobject(t, Position(t, init.items, k), s, off)
    requires x in mem && a + off <= x < a + off + Sizeof(s)
    ensures Braced(s, init.items[k].init)
    ensures x in Painted(mem, a, t, init) && x in Painted(mem, a + off, s, init.items[k].init)
    ensures Painted(mem, a, t, init)[x] == Painted(mem, a + off, s, init.items[k].init)[x]
  {
    hide Fit, Sizeof, Braced, Subobject, LeafByte, Ref, Position, PartOffset, Part;
    var o := x - (a + off);
    SubobjectIs(t, Position(t, init.items, k), s, off);
    SubobjectRef(t, init, k, s, off, o);
    PlaceLeaf(t, Position(t, init.items, k), o);
    assert x - a == off + o;
  }

  /** Two memories have the same `n` bytes from `lo` on. */
  ghost predicate SameAt(mem: Mem, mem1: Mem, lo: int, n: int) {
    forall x :: lo <= x < lo + n ==> x in mem && x in mem1 && mem[x] == mem1[x]
  }

  lemma SubobjectBytes(mem: Mem, a: int, t: Type, init: Init, k: nat, s: Type, off: int)
    requires Fit(t) && Latest(t, init, k) && Subobject(t, Position(t, init.items, k), s, off)
    requires Braced(t, init) && Holds(mem, a, t)
    ensures Braced(s, init.items[k].init)
    ensures SameAt(Painted(mem, a, t, init), Painted(mem, a + off, s, init.items[k].init), a + off, Sizeof(s))
  {
    hide Fit, Sizeof, Braced, Subobject, Painted, Position, Latest;
    LatestItem(t, init, k, s, off);
    SubobjectIs(t, Position(t, init.items, k), s, off);
    PaintedAll(mem, a, t, init);
    var p, q := Painted(mem, a, t, init), Painted(mem, a + off, s, init.items[k].init);
    forall x | a + off <= x < a + off + Sizeof(s)
      ensures x in p && x in q && p[x] == q[x]
    {
      SubobjectPainted(mem, a, t, init, k, s, off, x);
    }
  }

  /**
   Running the emitted code leaves an element or a member as its last item alone would have, at `i`
   times the size of an element or at the offset of the member; a scalar one holds the value's bytes.
   */
  lemma SubobjectRuns(code: seq<Instr>, base: seq<int>, scope: Scope, o: Out, addr: Operand, t: Type, init: Init,
                      m: State, a: int, j: nat, s: Type, off: int) returns (k: nat, m1: State)
    requires Fit(t) && Braced(t, init) && NoCopies(t, init)
    requires Below(addr, o.nt) && ScopeBelow(scope, o.nt) && m.pc == |o.code|
    requires GenInit(scope, o, addr, t, init).code <= code && Value(m, addr) == Some(a) && Holds(m.mem, a, t)
    requires Latest(t, init, j) && Subobject(t, Position(t, init.items, j), s, off)
    ensures Ran(code, base, o, m, k, GenInit(scope, o, addr, t, init), m1)
    ensures Sizeof(s) > 0 && InBounds(m1.mem, a + off, Sizeof(s)) && Braced(s, init.items[j].init)
    ensures SameAt(m1.mem, Painted(m.mem, a + off, s, init.items[j].init), a + off, Sizeof(s))
    ensures s.Scalar? ==> Read(m1.mem, a + off, Sizeof(s)) == Encode(Sizeof(s), ScalarValue(init.items[j].init))
  {
    hide Fit, Ran, GenInit, Braced, Position, Painted, Subobject, NoCopies, Sizeof, Latest, Encode, Read;
    k, m1 := InitRuns(code, base, scope, o, addr, t, init, m, a);
    LatestItem(t, init, j, s, off);
    SubobjectIs(t, Position(t, init.items, j), s, off);
    PaintedAll(m.mem, a, t, init);
    SubobjectBytes(m.mem, a, t, init, j, s, off);
    if s.Scalar? {
      ScalarRead(m.mem, m1.mem, a + off, s, init.items[j].init);
    }
  }

  lemma LatestItem(t: Type, init: Init, k: nat, s: Type, off: int)
    requires Fit(t) && Latest(t, init, k) && Subobject(t, Position(t, init.items, k), s, off)
    ensures Listed(t, init) && k < |init.items| && Braced(s, init.items[k].init)
  {
    hide Fit, Sizeof, Braced, Subobject;
    SubobjectIs(t, Position(t, init.items, k), s, off);
    SubobjectRef(t, init, k, s, off, 0);
  }

  lemma PaintedAll(mem: Mem, a: int, t: Type, init: Init)
    requires Braced(t, init) && Holds(mem, a, t)
    ensures Painted(mem, a, t, init).Keys == mem.Keys && forall x :: a <= x < a + Sizeof(t) ==> x in mem
  {
    hide LeafByte, Ref;
  }

  lemma ScalarRead(mem: Mem, mem1: Mem, a: int, t: Type, init: Init)
    requires t.Scalar? && Braced(t, init) && Sizeof(t) > 0
    requires SameAt(mem1, Painted(mem, a, t, init), a, Sizeof(t))
    ensures InBounds(mem1, a, Sizeof(t)) && Read(mem1, a, Sizeof(t)) == Encode(Sizeof(t), ScalarValue(init))
  {
    hide Encode;
    forall i | 0 <= i < Sizeof(t)
      ensures Read(mem1, a, Sizeof(t))[i] == Encode(Sizeof(t), ScalarValue(init))[i]
    {
      assert mem1[a + i] == Painted(mem, a, t, init)[a + i];
    }
  }

  // ----- the two implementations -----

  /**
   The image of a static object and the bytes the emitted code stores into an automatic one agree
   on every scalar exactly when no byte of the image is stale.
   */
  lemma ImageAgrees(code: seq<Instr>, base: seq<int>, scope: Scope, o: Out, addr: Operand, t: Type, init: Init,
                    m: State, a: int) returns (k: nat, m1: State)
    requires Fit(t) && Braced(t, init) && NoCopies(t, init)
    requires Below(addr, o.nt) && ScopeBelow(scope, o.nt) && m.pc == |o.code|
    requires GenInit(scope, o, addr, t, init).code <= code && Value(m, addr) == Some(a) && Holds(m.mem, a, t)
    ensures Ran(code, base, o, m, k, GenInit(scope, o, addr, t, init), m1) && m1.mem.Keys == m.mem.Keys
    ensures var image := Fill(t, init, 0, seq(Sizeof(t), _ => 0));
            forall i :: 0 <= i < Sizeof(t) && LeafByte(t, i) ==>
              a + i in m1.mem && (m1.mem[a + i] == image[i] <==> !Stale(t, init, i))
    ensures forall x :: x in m.mem && !(a <= x < a + Sizeof(t)) ==> m1.mem[x] == m.mem[x]
    ensures Once(t, init) ==> forall i :: 0 <= i < Sizeof(t) ==> !Stale(t, init, i)
  {
    hide Fit, Ran, GenInit, Braced, Stale, Ref, Static, Fill, LeafByte, Once, NoCopies, Painted;
    k, m1 := InitRuns(code, base, scope, o, addr, t, init, m, a);
    var zeros := seq(Sizeof(t), _ => 0);
    FillIs(t, init, 0, zeros);
    var image := Fill(t, init, 0, zeros);
    forall i | 0 <= i < Sizeof(t)
      ensures image[i] == Ref(t, init, i) <==> !Stale(t, init, i)
      ensures Once(t, init) ==> !Stale(t, init, i)
    {
      assert image[i] == Initializers.Or(Static(t, init, i - 0), zeros[i]);
      StaticExact(t, init, i);
      if Once(t, init) {
        OnceNotStale(t, init, i);
      }
    }
    PaintedBytes(m.mem, a, t, init);
    assert InBounds(m.mem, a, Sizeof(t));
  }

  lemma PaintedBytes(mem: Mem, a: int, t: Type, init: Init)
    requires Fit(t) && Braced(t, init)
    ensures var r := Painted(mem, a, t, init);
            && r.Keys == mem.Keys
            && (forall i {:trigger LeafByte(t, i)} :: LeafByte(t, i) && a + i in mem ==> r[a + i] == Ref(t, init, i))
            && (forall x :: x in mem && !(a <= x < a + Sizeof(t)) ==> r[x] == mem[x])
  {
    hide Fit, LeafByte, Ref, Braced;
    var r := Painted(mem, a, t, init);
    forall i {:trigger LeafByte(t, i)} | LeafByte(t, i) && a + i in mem
      ensures r[a + i] == Ref(t, init, i)
    {
      assert a + i - a == i;
    }
    forall x | x in mem && !(a <= x < a + Sizeof(t))
      ensures r[x] == mem[x]
    {
      if LeafByte(t, x - a) {
        LeafByteInside(t, x - a);
      }
    }
  }
}
