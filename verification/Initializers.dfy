/**
 Initializers: the meaning C99 section 6.7.8 gives to a braced initializer, byte by byte, and the
 image of a static object that the compiler builds in a buffer.
 */
module Initializers {
  import opened Wrappers
  import opened Bits
  import opened Types
  import opened Layout
  import opened CompleteTypes
  import opened Ast
  import opened Members

  datatype Init = Single(e: Expr) | Braces(items: seq<Item>)

  datatype Item = Item(at: Option<Designator>, init: Init)

  datatype Designator = Index(e: Expr) | Direct(name: string)

  /** A literal with signs, whose value fits in a `long long`. */
  predicate Literal(e: Expr) {
    match e
    case IntLit(v) => 0 <= v < 0x8000_0000_0000_0000
    case Unary(op, a) => (op == Minus || op == UnaryOp.Plus) && Literal(a)
    case _ => false
  }

  /** `const_int_value`: anything but a signed literal counts as 0. */
  function ConstInt(e: Expr): int {
    match e
    case IntLit(v) => v
    case Unary(op, a) => if op == Minus then -ConstInt(a) else if op == UnaryOp.Plus then ConstInt(a) else 0
    case _ => 0
  }

  lemma {:induction false} LiteralInt64(e: Expr)
    requires Literal(e)
    ensures -0x8000_0000_0000_0000 < ConstInt(e) < 0x8000_0000_0000_0000
  {
    if e.Unary? {
      LiteralInt64(e.operand);
    }
  }

  // ----- the parts of an object -----

  /**
   Types that integer literals can initialize byte for byte: no bit-fields, no empty aggregates, no
   floating types, whose representation is converted, and no `_Bool`, whose value would be.
   */
  predicate Plain(t: Type) {
    match t
    case Scalar(k) => k != FloatK && k != DoubleK && k != LDoubleK && k != BoolK
    case Array(e, _) => Plain(e)
    case Struct(fs, _, _) => |fs| > 0 && forall i :: 0 <= i < |fs| ==> fs[i].width == -1 && Plain(fs[i].ty)
    case Union(fs, _, _) => |fs| > 0 && forall i :: 0 <= i < |fs| ==> fs[i].width == -1 && Plain(fs[i].ty)
    case _ => false
  }

  /** How many elements or members. */
  function PartCount(t: Type): int {
    match t
    case Array(_, n) => n
    case Struct(fs, _, _) => |fs|
    case Union(fs, _, _) => |fs|
    case _ => 0
  }

  function Part(t: Type, p: int): (r: Type)
    requires 0 <= p < PartCount(t)
    ensures r < t
  {
    if t.Array? then t.elem else t.fields[p].ty
  }

  function PartOffset(t: Type, p: int): int
    requires 0 <= p < PartCount(t)
  {
    if t.Array? then p * (if Sizeof(t.elem) <= 0 then 1 else Sizeof(t.elem)) else t.fields[p].offset
  }

  /** A complete type that literals can initialize. */
  predicate Fit(t: Type) {
    Complete(t) && Plain(t)
  }

  lemma {:induction false} PartFits(t: Type, p: int)
    requires Fit(t) && 0 <= p < PartCount(t)
    ensures Fit(Part(t, p)) && Sizeof(Part(t, p)) > 0
    ensures 0 <= PartOffset(t, p) && PartOffset(t, p) + Sizeof(Part(t, p)) <= Sizeof(t)
    decreases t
  {
    hide StructFits, SealStruct, SealUnion, SizeOk;
    SizePositive(Part(t, p));
    if t.Array? {
      var size := Sizeof(t.elem);
      MulMonotone(size, p + 1, t.count);
      MulMonotone(size, 0, p);
      assert size * (p + 1) == p * size + size && size * t.count == Sizeof(t);
    } else {
      FieldInside(t, p);
      SizeOfAggregate(t);
    }
  }

  lemma {:induction false} SizePositive(t: Type)
    requires Fit(t)
    ensures Sizeof(t) > 0
    decreases t
  {
    hide StructFits, SealStruct, SealUnion, SizeOk;
    if t.Array? {
      SizePositive(t.elem);
      MulMonotone(Sizeof(t.elem), 1, t.count);
    } else if t.Struct? || t.Union? {
      SizePositive(t.fields[0].ty);
      FieldInside(t, 0);
      SizeOfAggregate(t);
    }
  }

  /** Byte `o` of an object belongs to a scalar in it. */
  ghost predicate LeafByte(t: Type, o: int)
    decreases t, 1
  {
    if t.Scalar? then 0 <= o < KindSize(t.kind) else LeafBelow(t, PartCount(t), o)
  }

  /** The same for the first `n` parts. */
  ghost predicate LeafBelow(t: Type, n: int, o: int)
    requires n <= PartCount(t)
    decreases t, 0
  {
    exists p {:trigger Covers(t, p, o)} :: 0 <= p < n && Covers(t, p, o)
  }

  ghost predicate Covers(t: Type, p: int, o: int)
    requires 0 <= p < PartCount(t)
    decreases Part(t, p), 2
  {
    LeafByte(Part(t, p), o - PartOffset(t, p))
  }

  lemma {:induction false} LeafByteInside(t: Type, o: int)
    requires Fit(t) && LeafByte(t, o)
    ensures 0 <= o < Sizeof(t)
    decreases t
  {
    hide PartOffset, Fit;
    if !t.Scalar? {
      assert LeafBelow(t, PartCount(t), o);
      var p :| 0 <= p < PartCount(t) && Covers(t, p, o);
      PartFits(t, p);
      LeafByteInside(Part(t, p), o - PartOffset(t, p));
    } else {
      assert Sizeof(t) == KindSize(t.kind);
    }
  }

  /** Distinct elements, and distinct members of a struct, share no byte. */
  lemma PartsApart(t: Type, p: int, q: int, o: int)
    requires Fit(t) && !t.Union? && 0 <= p < PartCount(t) && 0 <= q < PartCount(t) && p != q
    requires Covers(t, p, o)
    ensures !Covers(t, q, o)
  {
    hide StructFits, SealStruct, SealUnion, SizeOk, LeafByte, Plain, Complete, PartOffset;
    PartFits(t, p);
    LeafByteInside(Part(t, p), o - PartOffset(t, p));
    RegionApart(t, p, q, o);
  }

  lemma RegionApart(t: Type, p: int, q: int, o: int)
    requires Fit(t) && !t.Union? && 0 <= p < PartCount(t) && 0 <= q < PartCount(t) && p != q
    requires 0 <= o - PartOffset(t, p) < Sizeof(Part(t, p))
    ensures !Covers(t, q, o)
  {
    hide StructFits, SealStruct, SealUnion, SizeOk, LeafByte, Plain, Complete;
    if Covers(t, q, o) {
      PartFits(t, p);
      PartFits(t, q);
      LeafByteInside(Part(t, q), o - PartOffset(t, q));
      if t.Array? {
        ElementsApart(Sizeof(t.elem), p, q, o);
      } else {
        MembersApart(t, p, q);
      }
      assert false;
    }
  }

  lemma ElementsApart(size: int, p: int, q: int, o: int)
    requires size > 0 && 0 <= o - p * size < size && 0 <= o - q * size < size
    ensures p == q
  {
    DivModUnique(o, size, p, o - p * size);
    DivModUnique(o, size, q, o - q * size);
  }

  lemma MembersApart(t: Type, p: nat, q: nat)
    requires Fit(t) && t.Struct? && p < |t.fields| && q < |t.fields| && p != q
    ensures var f, g := t.fields[p], t.fields[q];
            f.offset + Sizeof(f.ty) <= g.offset || g.offset + Sizeof(g.ty) <= f.offset
  {
    hide AlignUp, LeastMultiple, Lawful, Layout.End, After, Sizeof, Alignof;
    SizeIsAligned(t);
    StructLayout(t.fields);
    var j, k := if p < q then p else q, if p < q then q else p;
    assert t.fields[p].width == -1 && t.fields[q].width == -1;
    assert BitEnd(t.fields[j]) <= BitStart(t.fields[k]);
  }

  // ----- which part an item initializes -----

  /** The field a designator names, or the number of fields. */
  function FieldIndex(fs: seq<Field>, x: string): (i: nat)
    ensures i <= |fs|
  {
    if fs == [] || fs[0].name == Some(x) then 0 else 1 + FieldIndex(fs[1..], x)
  }

  /** C99 section 6.7.8, paragraphs 17 to 19: an item follows its predecessor unless designated. */
  function Position(t: Type, items: seq<Item>, k: nat): int
    requires k < |items|
  {
    match items[k].at
    case None => if k == 0 then 0 else Position(t, items, k - 1) + 1
    case Some(Index(e)) => ConstInt(e)
    case Some(Direct(x)) => if IsAggregate(t) then FieldIndex(t.fields, x) else -1
  }

  /** Item `k` has a designator of the right kind and names a part of the object. */
  ghost predicate Designates(t: Type, items: seq<Item>, k: nat)
    requires k < |items|
  {
    && 0 <= Position(t, items, k) < PartCount(t)
    && (match items[k].at
        case None => true
        case Some(Index(e)) => t.Array?
        case Some(Direct(x)) => IsAggregate(t) && First(t, x, [Position(t, items, k)]))
  }

  /** The constraints: every scalar has one literal, in at most one pair of braces; every aggregate has braces. */
  ghost predicate Braced(t: Type, init: Init)
    decreases init
  {
    match init
    case Single(e) => t.Scalar? && Literal(e)
    case Braces(items) =>
      if t.Scalar? then
        |items| <= 1 && forall k :: 0 <= k < |items| ==>
          items[k].at.None? && items[k].init.Single? && Literal(items[k].init.e)
      else
        forall k :: 0 <= k < |items| ==>
          Designates(t, items, k) && Braced(Part(t, Position(t, items, k)), items[k].init)
  }

  /** An aggregate and the items of its list. */
  ghost predicate Listed(t: Type, init: Init) {
    init.Braces? && !t.Scalar? && Braced(t, init)
  }

  ghost function ItemPart(t: Type, init: Init, k: nat): (r: Type)
    requires Listed(t, init) && k < |init.items|
    ensures r < t && Braced(r, init.items[k].init)
  {
    assert Designates(t, init.items, k);
    Part(t, Position(t, init.items, k))
  }

  ghost function ItemOffset(t: Type, init: Init, k: nat): int
    requires Listed(t, init) && k < |init.items|
  {
    assert Designates(t, init.items, k);
    PartOffset(t, Position(t, init.items, k))
  }

  ghost predicate ItemCovers(t: Type, init: Init, k: nat, o: int)
    requires Listed(t, init) && k < |init.items|
  {
    LeafByte(ItemPart(t, init, k), o - ItemOffset(t, init, k))
  }

  /** The literal that initializes a scalar; an empty list stands for 0. */
  function ScalarValue(init: Init): int {
    match init
    case Single(e) => ConstInt(e)
    case Braces(items) => if items == [] || items[0].init.Braces? then 0 else ConstInt(items[0].init.e)
  }

  function ByteAt(size: nat, x: int, o: int): Option<byte> {
    if 0 <= o < size then Some(Encode(size, x)[o]) else None
  }

  function Or(b: Option<byte>, d: byte): byte {
    if b.Some? then b.value else d
  }

  // ----- the meaning -----

  /** Byte `o` of an initialized object: the last item for its subobject decides, and 0 is the default. */
  ghost function Ref(t: Type, init: Init, o: int): byte
    requires Braced(t, init)
    decreases init, 1, 0
  {
    if t.Scalar? then Or(ByteAt(KindSize(t.kind), ScalarValue(init), o), 0)
    else RefUpTo(t, init, |init.items|, o)
  }

  ghost function RefUpTo(t: Type, init: Init, n: nat, o: int): byte
    requires Listed(t, init) && n <= |init.items|
    decreases init, 0, n
  {
    if n == 0 then 0
    else if ItemCovers(t, init, n - 1, o) then
      Ref(ItemPart(t, init, n - 1), init.items[n - 1].init, o - ItemOffset(t, init, n - 1))
    else RefUpTo(t, init, n - 1, o)
  }

  lemma CoversLeaf(t: Type, init: Init, k: nat, o: int)
    requires Listed(t, init) && k < |init.items| && ItemCovers(t, init, k, o)
    ensures LeafByte(t, o)
  {
    assert Designates(t, init.items, k);
    assert Covers(t, Position(t, init.items, k), o);
  }

  /** Padding is not initialized to anything but 0. */
  lemma {:induction false} RefPadding(t: Type, init: Init, n: nat, o: int)
    requires Listed(t, init) && n <= |init.items| && !LeafByte(t, o)
    ensures RefUpTo(t, init, n, o) == 0
    decreases n
  {
    hide LeafByte;
    if n > 0 {
      if ItemCovers(t, init, n - 1, o) {
        CoversLeaf(t, init, n - 1, o);
      }
      RefPadding(t, init, n - 1, o);
    }
  }

  // ----- the static image -----

  /** What a loop keeps between items: an index, or the rest of the list of fields, empty for NULL. */
  datatype Next = Elem(index: int) | Rest(fields: seq<Field>)

  datatype Where = Skip(next: Next) | Stop | At(ty: Type, off: int, next: Next)

  /** The rest of the list from the first field of that name on, from field `k`, searching anonymous aggregates in turn. */
  function FindFieldFrom(t: Type, k: nat, x: string): seq<Field>
    requires IsAggregate(t) && k <= |t.fields|
    decreases t, |t.fields| - k
  {
    if k == |t.fields| || t.fields[k].name == Some(x) then t.fields[k..]
    else
      var f := t.fields[k];
      var inner := if f.name.None? && IsAggregate(f.ty) then FindFieldFrom(f.ty, 0, x) else [];
      if inner != [] then inner else FindFieldFrom(t, k + 1, x)
  }

  /** `find_field`. */
  function FindField(t: Type, x: string): seq<Field>
    requires IsAggregate(t)
  {
    FindFieldFrom(t, 0, x)
  }

  function Start(t: Type): Next {
    if IsAggregate(t) then Rest(t.fields) else Elem(0)
  }

  predicate Goes(t: Type, next: Next) {
    (t.Array? && next.Elem?) || (IsAggregate(t) && next.Rest?)
  }

  /** Both loops of the compiler choose the subobject for an item like this, and where to go on. */
  function Target(t: Type, item: Item, next: Next): (w: Where)
    requires Goes(t, next)
    ensures !w.Stop? ==> Goes(t, w.next)
  {
    if t.Array? then
      if item.at.Some? && item.at.value.Direct? then Skip(next)
      else
        var index := if item.at.Some? then ConstInt(item.at.value.e) else next.index;
        if 0 <= index < t.count then At(t.elem, PartOffset(t, index), Elem(index + 1)) else Skip(Elem(index + 1))
    else
      if item.at.Some? && item.at.value.Index? then Skip(next)
      else
        var fs := if item.at.Some? then FindField(t, item.at.value.name) else next.fields;
        if fs == [] then Stop else At(fs[0].ty, fs[0].offset, Rest(fs[1..]))
  }

  /** An object of type `s` at offset `off` lies inside one of type `t`. */
  predicate Room(t: Type, s: Type, off: int) {
    Fit(s) && 0 <= off && off + Sizeof(s) <= Sizeof(t)
  }

  predicate RoomFor(t: Type, fs: seq<Field>) {
    forall i :: 0 <= i < |fs| ==> Room(t, fs[i].ty, fs[i].offset)
  }

  /** Wherever a loop goes on, there is room. */
  predicate Inside(t: Type, next: Next) {
    Goes(t, next) && (next.Rest? ==> RoomFor(t, next.fields))
  }

  lemma StartInside(t: Type)
    requires Fit(t) && !t.Scalar?
    ensures Inside(t, Start(t))
  {
    hide Fit;
    FitIsPlain(t);
    if IsAggregate(t) {
      forall i | 0 <= i < |t.fields| ensures Room(t, t.fields[i].ty, t.fields[i].offset) { PartFits(t, i); }
    }
  }

  lemma FitIsPlain(t: Type)
    requires Fit(t)
    ensures Plain(t) && (t.Array? || IsAggregate(t) || t.Scalar?)
  {
  }

  lemma {:induction false} FindInside(t: Type, u: Type, k: nat, x: string)
    requires IsAggregate(u) && k <= |u.fields| && RoomFor(t, u.fields)
    ensures RoomFor(t, FindFieldFrom(u, k, x))
    decreases u, |u.fields| - k
  {
    hide Fit, Sizeof;
    if k < |u.fields| && u.fields[k].name != Some(x) {
      var f := u.fields[k];
      assert Room(t, f.ty, f.offset);
      if f.name.None? && IsAggregate(f.ty) {
        StartInside(f.ty);
        assert RoomFor(t, f.ty.fields);
        FindInside(t, f.ty, 0, x);
      }
      FindInside(t, u, k + 1, x);
    }
  }

  lemma TargetInside(t: Type, item: Item, next: Next)
    requires Fit(t) && Inside(t, next)
    ensures var w := Target(t, item, next);
            (w.At? ==> Room(t, w.ty, w.off) && Sizeof(w.ty) > 0) && (!w.Stop? ==> Inside(t, w.next))
  {
    hide Fit, Sizeof, FindFieldFrom, PartOffset;
    var w := Target(t, item, next);
    if IsAggregate(t) {
      StartInside(t);
      if item.at.Some? && item.at.value.Direct? {
        FindInside(t, t, 0, item.at.value.name);
      }
    } else if w.At? {
      PartFits(t, w.next.index - 1);
    }
    if w.At? {
      SizePositive(w.ty);
    }
  }

  function WriteAt(buf: seq<byte>, at: nat, bs: seq<byte>): (r: seq<byte>)
    requires at + |bs| <= |buf|
    ensures |r| == |buf|
    ensures forall x :: 0 <= x < |buf| ==> r[x] == if at <= x < at + |bs| then bs[x - at] else buf[x]
  {
    buf[..at] + bs + buf[at + |bs|..]
  }

  function FillScalar(t: Type, init: Init, base: nat, buf: seq<byte>): (r: seq<byte>)
    requires base + Sizeof(t) <= |buf|
    ensures |r| == |buf|
  {
    var n := if Sizeof(t) > 8 then 8 else Sizeof(t);
    if n <= 0 then buf else WriteAt(buf, base, Encode(n, ScalarValue(init)))
  }

  /** The buffer after the initializer of the object at `base`. */
  function Fill(t: Type, init: Init, base: nat, buf: seq<byte>): (r: seq<byte>)
    requires Fit(t) && base + Sizeof(t) <= |buf|
    ensures |r| == |buf|
    decreases init, 1, 0
  {
    if init.Single? || t.Scalar? then FillScalar(t, init, base, buf)
    else
      StartInside(t);
      FillItems(t, init, 0, Start(t), base, buf)
  }

  function FillItems(t: Type, init: Init, k: nat, next: Next, base: nat, buf: seq<byte>): (r: seq<byte>)
    requires Fit(t) && base + Sizeof(t) <= |buf| && init.Braces? && Inside(t, next) && k <= |init.items|
    ensures |r| == |buf|
    decreases init, 0, |init.items| - k
  {
    if k == |init.items| then buf
    else
      TargetInside(t, init.items[k], next);
      match Target(t, init.items[k], next)
      case Skip(n) => FillItems(t, init, k + 1, n, base, buf)
      case Stop => buf
      case At(s, off, n) => FillItems(t, init, k + 1, n, base, Fill(s, init.items[k].init, base + off, buf))
  }

  /** Whatever the initializer looks like, nothing outside the object is written. */
  lemma {:induction false} FillInside(t: Type, init: Init, base: nat, buf: seq<byte>, x: nat)
    requires Fit(t) && base + Sizeof(t) <= |buf| && x < |buf| && !(base <= x < base + Sizeof(t))
    ensures Fill(t, init, base, buf)[x] == buf[x]
    decreases init, 1, 0
  {
    hide Fit, Encode;
    if !(init.Single? || t.Scalar?) {
      StartInside(t);
      FillItemsInside(t, init, 0, Start(t), base, buf, x);
    }
  }

  lemma {:induction false} FillItemsInside(t: Type, init: Init, k: nat, next: Next, base: nat, buf: seq<byte>, x: nat)
    requires Fit(t) && base + Sizeof(t) <= |buf| && init.Braces? && Inside(t, next) && k <= |init.items|
    requires x < |buf| && !(base <= x < base + Sizeof(t))
    ensures FillItems(t, init, k, next, base, buf)[x] == buf[x]
    decreases init, 0, |init.items| - k
  {
    hide Fit, Fill, Target, Sizeof;
    if k < |init.items| {
      TargetInside(t, init.items[k], next);
      match Target(t, init.items[k], next)
      case Skip(n) => FillItemsInside(t, init, k + 1, n, base, buf, x);
      case Stop =>
      case At(s, off, n) =>
        FillInside(s, init.items[k].init, base + off, buf, x);
        FillItemsInside(t, init, k + 1, n, base, Fill(s, init.items[k].init, base + off, buf), x);
    }
  }

  // ----- the search behind a designator -----

  /** The field at the end of a path, and the fields after it in its own list. */
  function From(t: Type, x: string, p: seq<nat>): (fs: seq<Field>)
    requires IsPath(t, x, p)
    ensures fs != [] && fs[0] == MemberAt(t, x, p)
    decreases t
  {
    if |p| == 1 then t.fields[p[0]..] else From(t.fields[p[0]].ty, x, p[1..])
  }

  /** The search finds the first member of that name in declaration order, or there is none. */
  lemma {:induction false} FindIsFirst(t: Type, x: string, k: nat) returns (p: seq<nat>)
    requires IsAggregate(t) && k <= |t.fields| && AbsentBefore(t, x, k)
    ensures var fs := FindFieldFrom(t, k, x);
            if fs == [] then Absent(t, x) else First(t, x, p) && fs == From(t, x, p)
    decreases t, |t.fields| - k
  {
    p := [];
    if k < |t.fields| {
      var f := t.fields[k];
      if f.name == Some(x) {
        NamedField(t, x, k);
        return [k];
      }
      if f.name.None? && IsAggregate(f.ty) {
        var q := FindIsFirst(f.ty, x, 0);
        if FindFieldFrom(f.ty, 0, x) != [] {
          NestedField(t, x, k, q);
          assert ([k] + q)[1..] == q;
          return [k] + q;
        }
      }
      SkippedField(t, x, k);
      p := FindIsFirst(t, x, k + 1);
    }
  }

  lemma FindFirst(t: Type, x: string, p: seq<nat>)
    requires IsAggregate(t) && First(t, x, p)
    ensures FindField(t, x) == From(t, x, p)
  {
    hide From, NotAfter;
    var q := FindIsFirst(t, x, 0);
    if FindField(t, x) != [] {
      FirstUnique(t, x, p, q);
    }
  }

  lemma LoneItem(t: Type, init: Init, base: nat, buf: seq<byte>, s1: Type, o1: int, n1: Next)
    requires Fit(t) && base + Sizeof(t) <= |buf| && init.Braces? && |init.items| == 1 && Goes(t, Start(t))
    requires Target(t, init.items[0], Start(t)) == At(s1, o1, n1)
    ensures Room(t, s1, o1) && Fill(t, init, base, buf) == Fill(s1, init.items[0].init, base + o1, buf)
  {
    hide Fit, Sizeof, Target, Fill, FillItems;
    assert t.Array? || IsAggregate(t);
    StartInside(t);
    FillEnds(t, init, Start(t), base, buf);
    FillStep(t, init, 0, Start(t), base, buf);
    FillEnds(t, init, n1, base, Fill(s1, init.items[0].init, base + o1, buf));
  }

  lemma TwoItems(t: Type, init: Init, base: nat, buf: seq<byte>, s1: Type, o1: int, n1: Next, s2: Type, o2: int, n2: Next)
    requires Fit(t) && base + Sizeof(t) <= |buf| && init.Braces? && |init.items| == 2 && Goes(t, Start(t)) && Goes(t, n1)
    requires Target(t, init.items[0], Start(t)) == At(s1, o1, n1) && Target(t, init.items[1], n1) == At(s2, o2, n2)
    ensures Room(t, s1, o1) && Room(t, s2, o2)
    ensures Fill(t, init, base, buf)
            == Fill(s2, init.items[1].init, base + o2, Fill(s1, init.items[0].init, base + o1, buf))
  {
    hide Fit, Sizeof, Target, Fill, FillItems;
    assert t.Array? || IsAggregate(t);
    StartInside(t);
    FillEnds(t, init, Start(t), base, buf);
    FillStep(t, init, 0, Start(t), base, buf);
    var buf1 := Fill(s1, init.items[0].init, base + o1, buf);
    FillStep(t, init, 1, n1, base, buf1);
    FillEnds(t, init, n2, base, Fill(s2, init.items[1].init, base + o2, buf1));
  }

  /** A designated item goes to the first member of its name, and the next one to the field after that. */
  lemma DesignatedTarget(t: Type, item: Item, p: seq<nat>, next: Next)
    requires IsAggregate(t) && next.Rest? && item.at.Some? && item.at.value.Direct? && First(t, item.at.value.name, p)
    ensures var fs := From(t, item.at.value.name, p);
            fs != [] && Target(t, item, next) == At(fs[0].ty, fs[0].offset, Rest(fs[1..]))
  {
    hide FindField, From, NotAfter;
    FindFirst(t, item.at.value.name, p);
  }

  lemma FollowingTarget(t: Type, item: Item, fs: seq<Field>)
    requires IsAggregate(t) && item.at.None? && fs != []
    ensures Target(t, item, Rest(fs)) == At(fs[0].ty, fs[0].offset, Rest(fs[1..]))
  {
  }

  lemma DesignatedItem(t: Type, item: Item, p: seq<nat>, base: nat, buf: seq<byte>)
    requires Fit(t) && IsAggregate(t) && item.at.Some? && item.at.value.Direct? && First(t, item.at.value.name, p)
    requires base + Sizeof(t) <= |buf|
    ensures var f := MemberAt(t, item.at.value.name, p);
            && Room(t, f.ty, f.offset)
            && Fill(t, Braces([item]), base, buf) == Fill(f.ty, item.init, base + f.offset, buf)
  {
    hide Fit, Sizeof, NotAfter, Target, Fill, FillItems, From, MemberAt, RoomFor;
    var f := MemberAt(t, item.at.value.name, p);
    DesignatedTarget(t, item, p, Start(t));
    LoneItem(t, Braces([item]), base, buf, f.ty, f.offset, Target(t, item, Start(t)).next);
  }

  /**
   A designated member is written at the offset stored in its own field, which is its place exactly
   when the anonymous aggregates around it all start where the object does.
   */
  lemma DesignatedFill(t: Type, item: Item, x: string, p: seq<nat>, base: nat, buf: seq<byte>)
    requires Fit(t) && IsAggregate(t) && item.at == Some(Direct(x)) && First(t, x, p) && base + Sizeof(t) <= |buf|
    ensures Room(t, MemberAt(t, x, p).ty, MemberAt(t, x, p).offset)
    ensures Fill(t, Braces([item]), base, buf)
            == Fill(MemberAt(t, x, p).ty, item.init, base + MemberAt(t, x, p).offset, buf)
    ensures MemberAt(t, x, p).offset == OffsetOf(t, x, p) <==> OuterAtZero(t, x, p)
  {
    hide Fit, Fill, NotAfter, MemberAt, OffsetOf, OuterAtZero;
    DesignatedItem(t, item, p, base, buf);
    DesignatedPlace(t, x, p);
  }

  lemma DesignatedPlace(t: Type, x: string, p: seq<nat>)
    requires Fit(t) && First(t, x, p)
    ensures MemberAt(t, x, p).offset == OffsetOf(t, x, p) <==> OuterAtZero(t, x, p)
  {
    hide Fit, MemberAt, OffsetOf, OuterAtZero, NotAfter;
    MemberOfFit(t, x, p);
    OwnOffsetExact(t, x, p);
  }

  lemma {:induction false} MemberOfFit(t: Type, x: string, p: seq<nat>)
    requires Fit(t) && IsPath(t, x, p)
    ensures Complete(t) && MemberAt(t, x, p).width == -1
    decreases t
  {
    hide Complete, Sizeof;
    if |p| > 1 {
      PartFits(t, p[0]);
      MemberOfFit(t.fields[p[0]].ty, x, p[1..]);
    }
  }

  /** On a list that meets the constraints, the loop's choice of part is the position C gives. */
  lemma TargetIs(t: Type, init: Init, k: nat)
    requires Fit(t) && Listed(t, init) && k < |init.items|
    ensures Inside(t, NextPart(t, init, k))
    ensures Target(t, init.items[k], NextPart(t, init, k))
            == At(ItemPart(t, init, k), ItemOffset(t, init, k), NextPart(t, init, k + 1))
  {
    hide Fit, FindField, First, Sizeof;
    var p := Position(t, init.items, k);
    assert Designates(t, init.items, k);
    NextInside(t, init, k);
    if IsAggregate(t) && init.items[k].at.Some? {
      FindFirst(t, init.items[k].at.value.name, [p]);
    }
  }

  lemma NextInside(t: Type, init: Init, k: nat)
    requires Fit(t) && Listed(t, init) && k <= |init.items|
    ensures Inside(t, NextPart(t, init, k))
  {
    hide Fit, Position;
    StartInside(t);
  }

  /** Where C goes on after the first `k` items. */
  ghost function NextPart(t: Type, init: Init, k: nat): Next
    requires Listed(t, init) && k <= |init.items|
  {
    if k == 0 then Start(t)
    else
      assert Designates(t, init.items, k - 1);
      var p := Position(t, init.items, k - 1) + 1;
      if IsAggregate(t) then Rest(t.fields[p..]) else Elem(p)
  }

  /** Byte `at` of a literal of `size` bytes. */
  datatype Lit = Lit(value: int, size: nat, at: nat)

  /** The last literal that an initializer gives for byte `o`, in the order of its text. */
  ghost function LastLiteral(t: Type, init: Init, o: int): (l: Option<Lit>)
    requires Braced(t, init)
    ensures l.Some? ==> l.value.at < l.value.size
    decreases init, 1, 0
  {
    if !t.Scalar? then LastUpTo(t, init, |init.items|, o)
    else if 0 <= o < KindSize(t.kind) then Some(Lit(ScalarValue(init), KindSize(t.kind), o))
    else None
  }

  ghost function ItemLast(t: Type, init: Init, k: nat, o: int): (l: Option<Lit>)
    requires Listed(t, init) && k < |init.items|
    ensures l.Some? ==> l.value.at < l.value.size
    decreases init, 0, 0
  {
    LastLiteral(ItemPart(t, init, k), init.items[k].init, o - ItemOffset(t, init, k))
  }

  ghost function LastUpTo(t: Type, init: Init, n: nat, o: int): (l: Option<Lit>)
    requires Listed(t, init) && n <= |init.items|
    ensures l.Some? ==> l.value.at < l.value.size
    decreases init, 0, n + 1
  {
    if n == 0 then None
    else if ItemLast(t, init, n - 1, o).Some? then ItemLast(t, init, n - 1, o)
    else LastUpTo(t, init, n - 1, o)
  }

  function Spelled(l: Option<Lit>): Option<byte> {
    if l.Some? then ByteAt(l.value.size, l.value.value, l.value.at) else None
  }

  /** What the image writes to byte `o`: an item that gives no literal for it does not undo an earlier one. */
  ghost function Static(t: Type, init: Init, o: int): Option<byte>
    requires Braced(t, init)
  {
    Spelled(LastLiteral(t, init, o))
  }

  ghost function StaticUpTo(t: Type, init: Init, n: nat, o: int): Option<byte>
    requires Listed(t, init) && n <= |init.items|
  {
    Spelled(LastUpTo(t, init, n, o))
  }

  ghost predicate Overlaid(old_: seq<byte>, new_: seq<byte>, base: nat, t: Type, init: Init)
    requires Braced(t, init)
  {
    && |new_| == |old_|
    && forall x {:trigger new_[x]} :: 0 <= x < |old_| ==> new_[x] == Or(Static(t, init, x - base), old_[x])
  }

  ghost predicate OverlaidUpTo(old_: seq<byte>, new_: seq<byte>, base: nat, t: Type, init: Init, k: nat)
    requires Listed(t, init) && k <= |init.items|
  {
    && |new_| == |old_|
    && forall x {:trigger new_[x]} :: 0 <= x < |old_| ==> new_[x] == Or(StaticUpTo(t, init, k, x - base), old_[x])
  }

  lemma ScalarFilled(t: Type, init: Init, base: nat, buf: seq<byte>)
    requires Fit(t) && t.Scalar? && Braced(t, init) && base + Sizeof(t) <= |buf|
    ensures Overlaid(buf, FillScalar(t, init, base, buf), base, t, init)
  {
    hide Encode, Complete;
  }

  /** The buffer holds what `Static` says of every byte, and is otherwise as it was. */
  lemma {:induction false} FillIs(t: Type, init: Init, base: nat, buf: seq<byte>)
    requires Fit(t) && Braced(t, init) && base + Sizeof(t) <= |buf|
    ensures Overlaid(buf, Fill(t, init, base, buf), base, t, init)
    decreases init, 1, 0
  {
    hide Fit, Overlaid, OverlaidUpTo;
    if init.Single? || t.Scalar? {
      assert t.Scalar?;
      ScalarFilled(t, init, base, buf);
    } else {
      NothingYet(t, init, base, buf);
      FillItemsIs(t, init, 0, base, buf, buf);
      AllItems(buf, Fill(t, init, base, buf), base, t, init);
    }
  }

  lemma NothingYet(t: Type, init: Init, base: nat, buf: seq<byte>)
    requires Listed(t, init)
    ensures OverlaidUpTo(buf, buf, base, t, init, 0)
  {
  }

  lemma AllItems(buf: seq<byte>, r: seq<byte>, base: nat, t: Type, init: Init)
    requires Listed(t, init) && OverlaidUpTo(buf, r, base, t, init, |init.items|)
    ensures Overlaid(buf, r, base, t, init)
  {
  }

  lemma {:induction false} FillItemsIs(t: Type, init: Init, k: nat, base: nat, first: seq<byte>, buf: seq<byte>)
    requires Fit(t) && Listed(t, init) && k <= |init.items| && base + Sizeof(t) <= |buf|
    requires OverlaidUpTo(first, buf, base, t, init, k)
    ensures Inside(t, NextPart(t, init, k))
    ensures OverlaidUpTo(first, FillItems(t, init, k, NextPart(t, init, k), base, buf), base, t, init, |init.items|)
    decreases init, 0, |init.items| - k
  {
    hide Fit, Overlaid, OverlaidUpTo, Target, Inside, Goes, Sizeof, ItemPart, ItemOffset, NextPart;
    NextInside(t, init, k);
    if k < |init.items| {
      TargetIs(t, init, k);
      FillStep(t, init, k, NextPart(t, init, k), base, buf);
      var s, off := ItemPart(t, init, k), ItemOffset(t, init, k);
      var next := Fill(s, init.items[k].init, base + off, buf);
      FillIs(s, init.items[k].init, base + off, buf);
      OneItem(t, init, k, base, first, buf, next);
      FillItemsIs(t, init, k + 1, base, first, next);
    }
  }

  lemma OneItem(t: Type, init: Init, k: nat, base: nat, first: seq<byte>, buf: seq<byte>, next: seq<byte>)
    requires Listed(t, init) && k < |init.items| && base + ItemOffset(t, init, k) >= 0
    requires OverlaidUpTo(first, buf, base, t, init, k)
    requires Overlaid(buf, next, base + ItemOffset(t, init, k), ItemPart(t, init, k), init.items[k].init)
    ensures OverlaidUpTo(first, next, base, t, init, k + 1)
  {
    hide LastLiteral, Encode;
    forall x | 0 <= x < |first|
      ensures next[x] == Or(StaticUpTo(t, init, k + 1, x - base), first[x])
    {
      var o := x - base;
      assert x - (base + ItemOffset(t, init, k)) == o - ItemOffset(t, init, k);
      assert next[x] == Or(Spelled(ItemLast(t, init, k, o)), buf[x]);
      assert buf[x] == Or(StaticUpTo(t, init, k, o), first[x]);
    }
  }

  // ----- when the image is right -----

  lemma {:induction false} LiteralIsLeaf(t: Type, init: Init, o: int)
    requires Braced(t, init) && LastLiteral(t, init, o).Some?
    ensures LeafByte(t, o)
    decreases init, 1, 0
  {
    hide LeafBelow;
    if !t.Scalar? {
      LiteralUpToIsLeaf(t, init, |init.items|, o);
    }
  }

  lemma {:induction false} LiteralUpToIsLeaf(t: Type, init: Init, n: nat, o: int)
    requires Listed(t, init) && n <= |init.items| && LastUpTo(t, init, n, o).Some?
    ensures LeafByte(t, o)
    decreases init, 0, n
  {
    hide LeafByte, LastLiteral, Braced;
    if ItemLast(t, init, n - 1, o).Some? {
      LiteralIsLeaf(ItemPart(t, init, n - 1), init.items[n - 1].init, o - ItemOffset(t, init, n - 1));
      CoversLeaf(t, init, n - 1, o);
    } else {
      LiteralUpToIsLeaf(t, init, n - 1, o);
    }
  }

  /**
   The last literal for byte `o` is overridden: a later item of a list around it is for a subobject
   that has the byte, and gives no literal for it.
   */
  ghost predicate Dropped(t: Type, init: Init, o: int)
    requires Braced(t, init)
    decreases init, 1, 0
  {
    !t.Scalar? && DroppedUpTo(t, init, |init.items|, o)
  }

  ghost predicate DroppedUpTo(t: Type, init: Init, n: nat, o: int)
    requires Listed(t, init) && n <= |init.items|
    decreases init, 0, n
  {
    n > 0 &&
    if ItemLast(t, init, n - 1, o).Some? then
      Dropped(ItemPart(t, init, n - 1), init.items[n - 1].init, o - ItemOffset(t, init, n - 1))
    else if ItemCovers(t, init, n - 1, o) then LastUpTo(t, init, n - 1, o).Some?
    else DroppedUpTo(t, init, n - 1, o)
  }

  /** C gives a byte the last literal for it, unless that literal is overridden; otherwise 0. */
  lemma {:induction false} RefIs(t: Type, init: Init, o: int)
    requires Braced(t, init)
    ensures Ref(t, init, o) == if Dropped(t, init, o) then 0 else Or(Static(t, init, o), 0)
    decreases init, 1, 0
  {
    hide Encode, LeafByte;
    if !t.Scalar? {
      RefUpToIs(t, init, |init.items|, o);
    }
  }

  lemma {:induction false} RefUpToIs(t: Type, init: Init, n: nat, o: int)
    requires Listed(t, init) && n <= |init.items|
    ensures RefUpTo(t, init, n, o) == if DroppedUpTo(t, init, n, o) then 0 else Or(StaticUpTo(t, init, n, o), 0)
    decreases init, 0, n
  {
    hide LeafByte, LastLiteral, Ref, Dropped, Braced, Spelled;
    NothingSpelled();
    if n > 0 {
      var s, i, d := ItemPart(t, init, n - 1), init.items[n - 1].init, o - ItemOffset(t, init, n - 1);
      RefIs(s, i, d);
      if ItemLast(t, init, n - 1, o).Some? {
        LiteralIsLeaf(s, i, d);
      } else {
        NeverDropped(s, i, d);
        RefUpToIs(t, init, n - 1, o);
      }
    }
  }

  lemma NothingSpelled()
    ensures Spelled(None) == None
  {
  }

  /** A literal that is overridden was there. */
  lemma {:induction false} NeverDropped(t: Type, init: Init, o: int)
    requires Braced(t, init) && LastLiteral(t, init, o).None?
    ensures !Dropped(t, init, o)
    decreases init, 1, 0
  {
    if !t.Scalar? {
      NeverDroppedUpTo(t, init, |init.items|, o);
    }
  }

  lemma {:induction false} NeverDroppedUpTo(t: Type, init: Init, n: nat, o: int)
    requires Listed(t, init) && n <= |init.items| && LastUpTo(t, init, n, o).None?
    ensures !DroppedUpTo(t, init, n, o)
    decreases init, 0, n
  {
    hide LeafByte, LastLiteral, Dropped, Braced;
    if n > 0 {
      NeverDroppedUpTo(t, init, n - 1, o);
    }
  }

  /** Byte `o` of the image is stale: its last literal is overridden, and spells something other than 0 there. */
  ghost predicate Stale(t: Type, init: Init, o: int)
    requires Braced(t, init)
  {
    && Dropped(t, init, o)
    && var l := LastLiteral(t, init, o); l.Some? && Encode(l.value.size, l.value.value)[l.value.at] != 0
  }

  /** The image of a zeroed buffer is right at a byte exactly when the byte is not stale. */
  lemma StaticExact(t: Type, init: Init, o: int)
    requires Braced(t, init)
    ensures Or(Static(t, init, o), 0) == Ref(t, init, o) <==> !Stale(t, init, o)
  {
    hide LastLiteral, Dropped, Encode, Ref;
    RefIs(t, init, o);
  }

  // ----- where the elements and the members are -----

  /** Element or member `i`: its type, and where it starts. */
  predicate Subobject(t: Type, i: int, s: Type, off: int) {
    if t.Array? then 0 <= i < t.count && s == t.elem && off == i * Sizeof(t.elem)
    else t.Struct? && 0 <= i < |t.fields| && s == t.fields[i].ty && off == t.fields[i].offset
  }

  lemma SubobjectIs(t: Type, i: int, s: Type, off: int)
    requires Fit(t) && Subobject(t, i, s, off)
    ensures !t.Union? && 0 <= i < PartCount(t) && s == Part(t, i) && off == PartOffset(t, i)
    ensures Fit(s) && 0 <= off && 0 < Sizeof(s) && off + Sizeof(s) <= Sizeof(t)
  {
    hide Fit, Sizeof;
    PartFits(t, i);
  }

  /** No later item is for the same subobject. */
  ghost predicate Latest(t: Type, init: Init, k: nat) {
    && Listed(t, init) && k < |init.items|
    && forall j :: k < j < |init.items| ==> Position(t, init.items, j) != Position(t, init.items, k)
  }

  /** No other item is. */
  ghost predicate Only(t: Type, init: Init, k: nat) {
    && Listed(t, init) && k < |init.items|
    && forall j :: 0 <= j < |init.items| && j != k ==> Position(t, init.items, j) != Position(t, init.items, k)
  }

  /** An item covers no byte of another subobject's place. */
  lemma ItemElsewhere(t: Type, init: Init, k: nat, p: int, o: int)
    requires Fit(t) && Listed(t, init) && k < |init.items| && !t.Union? && 0 <= p < PartCount(t)
    requires Position(t, init.items, k) != p && 0 <= o < Sizeof(Part(t, p))
    ensures !ItemCovers(t, init, k, PartOffset(t, p) + o)
    ensures ItemLast(t, init, k, PartOffset(t, p) + o) == None
  {
    hide Fit, LeafByte, Sizeof, PartOffset, LastLiteral;
    var x, q := PartOffset(t, p) + o, Position(t, init.items, k);
    assert Designates(t, init.items, k);
    RegionApart(t, p, q, x);
    assert Covers(t, q, x) <==> LeafByte(Part(t, q), x - PartOffset(t, q));
    if ItemLast(t, init, k, x).Some? {
      LiteralIsLeaf(ItemPart(t, init, k), init.items[k].init, x - ItemOffset(t, init, k));
    }
  }

  lemma CoveredBy(t: Type, o: int) returns (q: int)
    requires !t.Scalar? && LeafByte(t, o)
    ensures 0 <= q < PartCount(t) && Covers(t, q, o)
  {
    assert LeafBelow(t, PartCount(t), o);
    q :| 0 <= q < PartCount(t) && Covers(t, q, o);
  }

  /** The bytes of a subobject's place that belong to it. */
  lemma PlaceLeaf(t: Type, p: int, o: int)
    requires Fit(t) && !t.Union? && 0 <= p < PartCount(t) && 0 <= o < Sizeof(Part(t, p))
    ensures LeafByte(t, PartOffset(t, p) + o) <==> LeafByte(Part(t, p), o)
  {
    hide Fit, PartOffset, Sizeof;
    var x := PartOffset(t, p) + o;
    assert !t.Scalar?;
    if LeafByte(Part(t, p), o) {
      assert x - PartOffset(t, p) == o;
      assert Covers(t, p, x);
    }
    if LeafByte(t, x) {
      var q := CoveredBy(t, x);
      if q != p {
        RegionApart(t, p, q, x);
        assert false;
      }
      assert x - PartOffset(t, p) == o;
    }
  }

  lemma {:induction false} PlaceRef(t: Type, init: Init, n: nat, k: nat, o: int)
    requires Fit(t) && Latest(t, init, k) && k < n <= |init.items| && !t.Union?
    requires 0 <= o < Sizeof(ItemPart(t, init, k))
    ensures RefUpTo(t, init, n, ItemOffset(t, init, k) + o) == Ref(ItemPart(t, init, k), init.items[k].init, o)
    decreases n
  {
    hide Fit, LeafByte, Sizeof, PartOffset, Ref, Part, Braced;
    var p, x := Position(t, init.items, k), ItemOffset(t, init, k) + o;
    assert Designates(t, init.items, k) by { ItemDesignates(t, init, k); }
    if n - 1 > k {
      ItemElsewhere(t, init, n - 1, p, o);
      PlaceRef(t, init, n - 1, k, o);
    } else {
      assert x - ItemOffset(t, init, k) == o;
      if !LeafByte(ItemPart(t, init, k), o) {
        PlaceLeaf(t, p, o);
        RefPadding(t, init, n, x);
        PaddingZero(ItemPart(t, init, k), init.items[k].init, o);
      }
    }
  }

  lemma ItemDesignates(t: Type, init: Init, k: nat)
    requires Listed(t, init) && k < |init.items|
    ensures Designates(t, init.items, k)
  {
  }

  lemma PaddingZero(t: Type, init: Init, o: int)
    requires Braced(t, init) && !LeafByte(t, o)
    ensures Ref(t, init, o) == 0
  {
    if !t.Scalar? {
      RefPadding(t, init, |init.items|, o);
    }
  }

  /**
   C99 sections 6.2.5 and 6.7.8: element `i` of an array starts at `i` times the size of an element,
   a member of a struct at its offset, and its bytes are those of the last item for it.
   */
  lemma SubobjectRef(t: Type, init: Init, k: nat, s: Type, off: int, o: int)
    requires Fit(t) && Latest(t, init, k) && Subobject(t, Position(t, init.items, k), s, off) && 0 <= o < Sizeof(s)
    ensures Braced(s, init.items[k].init) && Ref(t, init, off + o) == Ref(s, init.items[k].init, o)
  {
    hide Fit, Sizeof, Braced, Subobject;
    SubobjectIs(t, Position(t, init.items, k), s, off);
    ItemDesignates(t, init, k);
    PlaceRef(t, init, |init.items|, k, o);
  }

  /** `{ [i] = x }` gives element `i` the bytes of `x`. */
  lemma DesignatedElement(t: Type, i: nat, x: Init, o: int)
    requires Fit(t) && t.Array? && i < t.count && Braced(t.elem, x) && 0 <= o < Sizeof(t.elem)
    ensures var init := Braces([Item(Some(Index(IntLit(i))), x)]);
            Braced(t, init) && Ref(t, init, i * Sizeof(t.elem) + o) == Ref(t.elem, x, o)
  {
    hide Fit, Sizeof;
    var init := Braces([Item(Some(Index(IntLit(i))), x)]);
    assert Position(t, init.items, 0) == i;
    assert Designates(t, init.items, 0);
    SubobjectRef(t, init, 0, t.elem, i * Sizeof(t.elem), o);
  }

  lemma {:induction false} InOrder(t: Type, items: seq<Item>, k: nat)
    requires k < |items| && forall j :: 0 <= j < |items| ==> items[j].at.None?
    ensures Position(t, items, k) == k
    decreases k
  {
    if k > 0 {
      InOrder(t, items, k - 1);
    }
  }

  /** `{ x0, x1, ... }` gives element `i` the bytes of the i-th. */
  lemma UndesignatedElement(t: Type, items: seq<Item>, i: nat, o: int)
    requires Fit(t) && t.Array? && i < |items| <= t.count && 0 <= o < Sizeof(t.elem)
    requires forall j :: 0 <= j < |items| ==> items[j].at.None? && Braced(t.elem, items[j].init)
    ensures Braced(t, Braces(items)) && Ref(t, Braces(items), i * Sizeof(t.elem) + o) == Ref(t.elem, items[i].init, o)
  {
    hide Fit, Sizeof;
    var init := Braces(items);
    forall j | 0 <= j < |items|
      ensures Position(t, items, j) == j && Designates(t, items, j)
    {
      InOrder(t, items, j);
    }
    assert Braced(t, init);
    SubobjectRef(t, init, i, t.elem, i * Sizeof(t.elem), o);
  }

  lemma {:induction false} PlaceLast(t: Type, init: Init, n: nat, k: nat, o: int)
    requires Fit(t) && Only(t, init, k) && n <= |init.items| && !t.Union? && 0 <= o < Sizeof(ItemPart(t, init, k))
    ensures LastUpTo(t, init, n, ItemOffset(t, init, k) + o) ==
            if n > k then LastLiteral(ItemPart(t, init, k), init.items[k].init, o) else None
    decreases n
  {
    hide Fit, LeafByte, Sizeof, PartOffset, LastLiteral, Part, Braced;
    var p, x := Position(t, init.items, k), ItemOffset(t, init, k) + o;
    assert Designates(t, init.items, k) by { ItemDesignates(t, init, k); }
    if n > 0 {
      PlaceLast(t, init, n - 1, k, o);
      if n - 1 == k {
        assert x - ItemOffset(t, init, k) == o;
      } else {
        ItemElsewhere(t, init, n - 1, p, o);
      }
    }
  }

  /** The image holds the bytes of a subobject at its place: they are filled as if it stood alone. */
  lemma SubobjectFill(t: Type, init: Init, k: nat, s: Type, off: int, base: nat, buf: seq<byte>)
    requires Fit(t) && Only(t, init, k) && Subobject(t, Position(t, init.items, k), s, off)
    requires base + Sizeof(t) <= |buf|
    ensures Fit(s) && 0 <= off && 0 < Sizeof(s) && off + Sizeof(s) <= Sizeof(t)
    ensures var from := base + off;
            Fill(t, init, base, buf)[from..from + Sizeof(s)]
            == Fill(s, init.items[k].init, 0, buf[from..from + Sizeof(s)])
  {
    hide Fit, Sizeof, Braced, Subobject, Fill, LastLiteral, PartOffset, Part;
    SubobjectIs(t, Position(t, init.items, k), s, off);
    ItemDesignates(t, init, k);
    FillIs(t, init, base, buf);
    var from := base + off;
    var old_, x := buf[from..from + Sizeof(s)], init.items[k].init;
    assert ItemPart(t, init, k) == s && Braced(s, x);
    FillIs(s, x, 0, old_);
    var r, r1 := Fill(t, init, base, buf), Fill(s, x, 0, old_);
    forall o | 0 <= o < Sizeof(s)
      ensures r[from + o] == r1[o]
    {
      PlaceLast(t, init, |init.items|, k, o);
      assert from + o - base == off + o && o - 0 == o;
      assert Static(t, init, off + o) == Static(s, x, o) by { StaticPlace(t, init, s, off, k, o); }
    }
  }

  /** So the element of an array of scalars that one item is for holds the bytes of its value. */
  lemma ScalarElement(t: Type, init: Init, k: nat, base: nat, buf: seq<byte>)
    requires Fit(t) && t.Array? && t.elem.Scalar? && Only(t, init, k) && base + Sizeof(t) <= |buf|
    ensures var i, n := Position(t, init.items, k), Sizeof(t.elem);
            && 0 <= i < t.count && n > 0 && base + (i + 1) * n <= |buf|
            && Fill(t, init, base, buf)[base + i * n..base + i * n + n] == Encode(n, ScalarValue(init.items[k].init))
  {
    hide Fit, Braced, Fill, Encode, Sizeof, Position;
    var i, n, x := Position(t, init.items, k), Sizeof(t.elem), init.items[k].init;
    OnlyDesignates(t, init, k);
    SubobjectFill(t, init, k, t.elem, i * n, base, buf);
    var old_ := buf[base + i * n..base + i * n + n];
    assert Fill(t.elem, x, 0, old_) == Encode(n, ScalarValue(x)) by { ScalarAlone(t.elem, x, old_); }
    assert (i + 1) * n == i * n + n;
  }

  lemma OnlyDesignates(t: Type, init: Init, k: nat)
    requires Only(t, init, k)
    ensures t.Array? ==> var i := Position(t, init.items, k); Subobject(t, i, t.elem, i * Sizeof(t.elem))
  {
    assert Designates(t, init.items, k);
  }

  lemma ScalarAlone(t: Type, init: Init, buf: seq<byte>)
    requires Fit(t) && t.Scalar? && Sizeof(t) == |buf|
    ensures Fill(t, init, 0, buf) == Encode(|buf|, ScalarValue(init))
  {
    hide Encode, Complete;
  }

  lemma StaticPlace(t: Type, init: Init, s: Type, off: int, k: nat, o: int)
    requires Listed(t, init) && k < |init.items| && Braced(s, init.items[k].init)
    requires LastUpTo(t, init, |init.items|, off + o) == LastLiteral(s, init.items[k].init, o)
    ensures Static(t, init, off + o) == Static(s, init.items[k].init, o)
  {
  }

  /** No subobject is initialized twice, and a union has at most one item. */
  ghost predicate Once(t: Type, init: Init)
    requires Braced(t, init)
    decreases init
  {
    t.Scalar? || (
      && (t.Union? ==> |init.items| <= 1)
      && (forall j, k :: 0 <= j < k < |init.items| ==> Position(t, init.items, j) != Position(t, init.items, k))
      && (forall k :: 0 <= k < |init.items| ==> Once(ItemPart(t, init, k), init.items[k].init)))
  }

  lemma {:induction false} OnceNotStale(t: Type, init: Init, o: int)
    requires Fit(t) && Braced(t, init) && Once(t, init)
    ensures !Dropped(t, init, o) && !Stale(t, init, o)
    decreases init, 1, 0
  {
    hide LeafByte, Fit, LastLiteral;
    if !t.Scalar? {
      OnceUpTo(t, init, |init.items|, o);
    }
  }

  lemma {:induction false} OnceUpTo(t: Type, init: Init, n: nat, o: int)
    requires Fit(t) && Listed(t, init) && Once(t, init) && n <= |init.items|
    ensures !DroppedUpTo(t, init, n, o)
    decreases init, 0, n
  {
    hide LeafByte, Fit, LastLiteral, Braced;
    if n > 0 {
      if ItemLast(t, init, n - 1, o).Some? {
        ItemFits(t, init, n - 1);
        assert Once(ItemPart(t, init, n - 1), init.items[n - 1].init);
        OnceNotStale(ItemPart(t, init, n - 1), init.items[n - 1].init, o - ItemOffset(t, init, n - 1));
      } else if ItemCovers(t, init, n - 1, o) {
        NoOther(t, init, n - 1, n - 1, o);
      } else {
        OnceUpTo(t, init, n - 1, o);
      }
    }
  }

  lemma ItemFits(t: Type, init: Init, k: nat)
    requires Fit(t) && Listed(t, init) && k < |init.items|
    ensures Fit(ItemPart(t, init, k)) && 0 <= ItemOffset(t, init, k)
    ensures ItemOffset(t, init, k) + Sizeof(ItemPart(t, init, k)) <= Sizeof(t)
  {
    hide Fit;
    assert Designates(t, init.items, k);
    PartFits(t, Position(t, init.items, k));
  }

  /** When item `k` covers a byte, no item before it has a literal for it. */
  lemma {:induction false} NoOther(t: Type, init: Init, k: nat, n: nat, o: int)
    requires Fit(t) && Listed(t, init) && Once(t, init) && n <= k < |init.items| && ItemCovers(t, init, k, o)
    ensures LastUpTo(t, init, n, o).None?
    decreases n
  {
    hide LeafByte, Fit, LastLiteral;
    if n > 0 {
      NoOther(t, init, k, n - 1, o);
      assert Designates(t, init.items, n - 1) && Designates(t, init.items, k);
      PartsApart(t, Position(t, init.items, k), Position(t, init.items, n - 1), o);
      if ItemLast(t, init, n - 1, o).Some? {
        LiteralIsLeaf(ItemPart(t, init, n - 1), init.items[n - 1].init, o - ItemOffset(t, init, n - 1));
      }
    }
  }

  // ----- the buffer, in place -----

  lemma {:induction false} EncodeWraps(n: nat, x: int, c: int)
    ensures Encode(n, x + c * Pow256(n)) == Encode(n, x)
  {
    if n > 0 {
      var p := c * Pow256(n - 1);
      assert c * Pow256(n) == 256 * p;
      assert (x + 256 * p) % 256 == x % 256 && (x + 256 * p) / 256 == x / 256 + p;
      EncodeWraps(n - 1, x / 256, c);
    }
  }

  lemma {:induction false} PowersMultiply(a: nat, b: nat)
    ensures Pow256(a + b) == Pow256(a) * Pow256(b)
  {
    if a > 0 {
      PowersMultiply(a - 1, b);
      var p, q := Pow256(a - 1), Pow256(b);
      assert 256 * (p * q) == (256 * p) * q;
    }
  }

  /** The low bytes of a number are those of its unsigned 64-bit form. */
  lemma EncodeUnsigned(n: nat, x: int)
    requires n <= 8
    ensures Encode(n, x % 0x1_0000_0000_0000_0000) == Encode(n, x)
  {
    hide Encode;
    var c := x / 0x1_0000_0000_0000_0000;
    PowersMultiply(8 - n, n);
    assert Pow256(8) == 0x1_0000_0000_0000_0000 by { assert Pow256(4) == 0x1_0000_0000; PowersMultiply(4, 4); }
    hide Pow256;
    var p, q := Pow256(8 - n), Pow256(n);
    assert c * (p * q) == (c * p) * q;
    EncodeWraps(n, x % 0x1_0000_0000_0000_0000, c * p);
    assert x % 0x1_0000_0000_0000_0000 + c * 0x1_0000_0000_0000_0000 == x;
  }

  lemma DivideInTurn(x: int, p: int)
    requires p >= 1
    ensures x / (256 * p) == (x / 256) / p
  {
    var q, r := (x / 256) / p, (x / 256) % p;
    assert x / 256 == p * q + r;
    assert (256 * p) * q == 256 * (p * q);
    assert x == (256 * p) * q + (256 * r + x % 256);
    DivModUnique(x, 256 * p, q, 256 * r + x % 256);
  }

  lemma {:induction false} EncodeByte(n: nat, x: int, i: nat)
    requires i < n
    ensures Encode(n, x)[i] == x / Pow256(i) % 256
  {
    if i > 0 {
      EncodeByte(n - 1, x / 256, i - 1);
      DivideInTurn(x, Pow256(i - 1));
    }
  }

  method WriteIntLe(buf: array<byte>, off: nat, size: nat, val: int)
    requires off + size <= buf.Length && size <= 8
    modifies buf
    ensures buf[..] == WriteAt(old(buf[..]), off, Encode(size, val))
  {
    hide Encode, Pow256;
    var u := val % 0x1_0000_0000_0000_0000;
    EncodeUnsigned(size, val);
    for i := 0 to size
      invariant forall x :: 0 <= x < buf.Length ==>
                  buf[x] == if off <= x < off + i then Encode(size, val)[x - off] else old(buf[..])[x]
    {
      EncodeByte(size, u, i);
      buf[off + i] := u / Pow256(i) % 256;
    }
  }

  method FillGlobalScalar(t: Type, init: Init, buf: array<byte>, base: nat)
    requires base + Sizeof(t) <= buf.Length
    modifies buf
    ensures buf[..] == FillScalar(t, init, base, old(buf[..]))
  {
    var size := Sizeof(t);
    if size <= 0 { return; }
    if size > 8 { size := 8; }
    var value := 0;
    match init {
      case Single(e) => value := ConstInt(e);
      case Braces(items) =>
        if |items| > 0 && items[0].init.Single? {
          value := ConstInt(items[0].init.e);
        }
    }
    WriteIntLe(buf, base, size, value);
  }

  /** One turn of the loop. */
  lemma FillStep(t: Type, init: Init, k: nat, next: Next, base: nat, buf: seq<byte>)
    requires Fit(t) && base + Sizeof(t) <= |buf| && init.Braces? && Inside(t, next) && k < |init.items|
    ensures var w := Target(t, init.items[k], next);
            && (!w.Stop? ==> Inside(t, w.next))
            && (w.Skip? ==> FillItems(t, init, k, next, base, buf) == FillItems(t, init, k + 1, w.next, base, buf))
            && (w.Stop? ==> FillItems(t, init, k, next, base, buf) == buf)
            && (w.At? ==>
                  && Room(t, w.ty, w.off)
                  && FillItems(t, init, k, next, base, buf)
                     == FillItems(t, init, k + 1, w.next, base, Fill(w.ty, init.items[k].init, base + w.off, buf)))
  {
    hide Fit, Target, Sizeof;
    TargetInside(t, init.items[k], next);
  }

  lemma FillSingle(t: Type, init: Init, base: nat, buf: seq<byte>)
    requires Fit(t) && base + Sizeof(t) <= |buf| && init.Single?
    ensures Fill(t, init, base, buf) == FillScalar(t, init, base, buf)
  {
  }

  lemma FillEnds(t: Type, init: Init, next: Next, base: nat, buf: seq<byte>)
    requires Fit(t) && base + Sizeof(t) <= |buf| && init.Braces? && Inside(t, next)
    ensures Inside(t, Start(t)) && Fill(t, init, base, buf) == FillItems(t, init, 0, Start(t), base, buf)
    ensures FillItems(t, init, |init.items|, next, base, buf) == buf
  {
    hide Fit, Sizeof, Target;
    StartInside(t);
  }

  method FillGlobalArray(t: Type, init: Init, buf: array<byte>, base: nat)
    requires t.Array? && Fit(t) && base + Sizeof(t) <= buf.Length
    modifies buf
    ensures buf[..] == Fill(t, init, base, old(buf[..]))
    decreases init, 0
  {
    hide Fit, FillScalar, Fill, FillItems;
    if init.Single? {
      FillSingle(t, init, base, buf[..]);
      FillGlobalScalar(t, init, buf, base);
      return;
    }
    ghost var was := buf[..];
    FillEnds(t, init, Elem(0), base, was);
    var elem := t.elem;
    var elemSize := Sizeof(elem);
    if elemSize <= 0 { elemSize := 1; }
    var next := 0;
    for k := 0 to |init.items|
      invariant FillItems(t, init, k, Elem(next), base, buf[..]) == Fill(t, init, base, was)
    {
      FillStep(t, init, k, Elem(next), base, buf[..]);
      var it := init.items[k];
      var index := next;
      if it.at.Some? {
        if it.at.value.Direct? { continue; }
        index := ConstInt(it.at.value.e);
      }
      if index < 0 || index >= t.count {
        next := index + 1;
        continue;
      }
      FillGlobalInitializer(elem, it.init, buf, base + index * elemSize);
      next := index + 1;
    }
    FillEnds(t, init, Elem(next), base, buf[..]);
  }

  /** One turn of the loop over an aggregate: a skipped item, the end of the fields, or the first of `fs`. */
  lemma FieldStep(t: Type, init: Init, k: nat, next: seq<Field>, fs: seq<Field>, base: nat, buf: seq<byte>)
    requires IsAggregate(t) && Fit(t) && base + Sizeof(t) <= |buf| && init.Braces? && k < |init.items|
    requires Inside(t, Rest(next))
    requires fs == if init.items[k].at.Some? && init.items[k].at.value.Direct?
                   then FindField(t, init.items[k].at.value.name) else next
    ensures var it, r := init.items[k], FillItems(t, init, k, Rest(next), base, buf);
            if it.at.Some? && it.at.value.Index? then r == FillItems(t, init, k + 1, Rest(next), base, buf)
            else if fs == [] then r == buf
            else
              && Room(t, fs[0].ty, fs[0].offset) && Inside(t, Rest(fs[1..]))
              && r == FillItems(t, init, k + 1, Rest(fs[1..]), base,
                                Fill(fs[0].ty, it.init, base + fs[0].offset, buf))
  {
    hide Fit, FindField, Fill, FillItems;
    FillStep(t, init, k, Rest(next), base, buf);
  }

  /** A list of fields stands for the pointer to its first node. */
  method FillGlobalAggregate(t: Type, init: Init, buf: array<byte>, base: nat)
    requires IsAggregate(t) && Fit(t) && base + Sizeof(t) <= buf.Length
    modifies buf
    ensures buf[..] == Fill(t, init, base, old(buf[..]))
    decreases init, 0
  {
    hide Fit, FillScalar, Fill, FillItems, Sizeof, FindField, RoomFor;
    if init.Single? {
      FillSingle(t, init, base, buf[..]);
      FillGlobalScalar(t, init, buf, base);
      return;
    }
    ghost var was := buf[..];
    StartInside(t);
    FillEnds(t, init, Start(t), base, was);
    var next := t.fields;
    for k := 0 to |init.items|
      invariant Inside(t, Rest(next))
      invariant FillItems(t, init, k, Rest(next), base, buf[..]) == Fill(t, init, base, was)
    {
      var it := init.items[k];
      var field := next;
      if it.at.Some? && it.at.value.Direct? {
        field := FindField(t, it.at.value.name);
      }
      FieldStep(t, init, k, next, field, base, buf[..]);
      if it.at.Some? && it.at.value.Index? { continue; }
      if field == [] { return; }
      FillGlobalInitializer(field[0].ty, it.init, buf, base + field[0].offset);
      next := field[1..];
    }
    FillEnds(t, init, Rest(next), base, buf[..]);
  }

  method FillGlobalInitializer(t: Type, init: Init, buf: array<byte>, base: nat)
    requires Fit(t) && base + Sizeof(t) <= buf.Length
    modifies buf
    ensures buf[..] == Fill(t, init, base, old(buf[..]))
    decreases init, 1
  {
    if t.Array? {
      FillGlobalArray(t, init, buf, base);
    } else if IsAggregate(t) {
      FillGlobalAggregate(t, init, buf, base);
    } else {
      FillGlobalScalar(t, init, buf, base);
    }
  }

  /**
   The image of a static object: a zeroed buffer, filled. It is what C prescribes at every byte
   that is not stale, and only there; so it is right throughout when nothing is initialized twice.
   */
  method StaticImage(t: Type, init: Init) returns (image: array<byte>)
    requires Fit(t) && Braced(t, init)
    ensures fresh(image) && image.Length == Sizeof(t)
    ensures forall o :: 0 <= o < Sizeof(t) ==> (image[o] == Ref(t, init, o) <==> !Stale(t, init, o))
    ensures Once(t, init) ==> forall o :: 0 <= o < Sizeof(t) ==> image[o] == Ref(t, init, o)
    ensures 0 <= Sizeof(t) && image[..] == Fill(t, init, 0, seq(Sizeof(t), _ => 0))
  {
    hide Fit, Fill, Braced, Once, Ref, Stale, Static;
    SizePositive(t);
    image := new byte[Sizeof(t)](_ => 0);
    ghost var zeros := image[..];
    FillGlobalInitializer(t, init, image, 0);
    assert zeros == seq(Sizeof(t), _ => 0);
    FillIs(t, init, 0, zeros);
    forall o | 0 <= o < Sizeof(t)
      ensures image[o] == Ref(t, init, o) <==> !Stale(t, init, o)
    {
      assert image[..][o] == Or(Static(t, init, o - 0), zeros[o]);
      StaticExact(t, init, o);
    }
    if Once(t, init) {
      forall o | 0 <= o < Sizeof(t)
        ensures !Stale(t, init, o)
      {
        OnceNotStale(t, init, o);
      }
    }
  }

  // ----- an object initialized twice -----

  const BOX := Struct([Field(Some("s"), PAIR, -1, 0, 0)], 8, 4)

  function Literals(vs: seq<int>): Init {
    Braces(seq(|vs|, i requires 0 <= i < |vs| => Item(None, Single(IntLit(vs[i])))))
  }

  /** `{ .s = {1, 2}, .s = {3} }`: C sets `s.b` to 0, and the image keeps the 2. */
  lemma TwiceIsStale()
    ensures var init := Braces([Item(Some(Direct("s")), Literals([1, 2])), Item(Some(Direct("s")), Literals([3]))]);
            Braced(BOX, init) && Stale(BOX, init, 4) && Static(BOX, init, 4) == Some(2) && Ref(BOX, init, 4) == 0
  {
    var first, second := Literals([1, 2]), Literals([3]);
    var init := Braces([Item(Some(Direct("s")), first), Item(Some(Direct("s")), second)]);
    NamedField(BOX, "s", 0);
    assert Position(BOX, init.items, 0) == 0 == Position(BOX, init.items, 1);
    PairBytes();
    assert Designates(BOX, init.items, 0) && Designates(BOX, init.items, 1);
    assert Braced(BOX, init);
    hide Braced;
    assert ItemLast(BOX, init, 1, 4) == None;
    assert ItemLast(BOX, init, 0, 4) == Some(Lit(2, 4, 0));
    assert LeafByte(PAIR, 4) by { assert Covers(PAIR, 1, 4); }
    assert ItemCovers(BOX, init, 1, 4);
    RefIs(BOX, init, 4);
  }

  lemma PairBytes()
    ensures Braced(PAIR, Literals([1, 2])) && Braced(PAIR, Literals([3]))
    ensures LastLiteral(PAIR, Literals([1, 2]), 4) == Some(Lit(2, 4, 0)) && Encode(4, 2)[0] == 2
    ensures LastLiteral(PAIR, Literals([3]), 4) == None
  {
    var first, second := Literals([1, 2]), Literals([3]);
    assert Position(PAIR, first.items, 1) == 1;
    assert Designates(PAIR, first.items, 0) && Designates(PAIR, first.items, 1) && Designates(PAIR, second.items, 0);
    assert ItemLast(PAIR, first, 1, 4) == Some(Lit(2, 4, 0));
    assert LastUpTo(PAIR, second, 1, 4) == None;
  }

  // ----- a member of an anonymous struct -----

  lemma OuterFits()
    ensures Fit(OUTER)
    ensures First(OUTER, "a", [1, 0]) && OffsetOf(OUTER, "a", [1, 0]) == 4
    ensures First(OUTER, "b", [1, 1]) && OffsetOf(OUTER, "b", [1, 1]) == 8
  {
    hide First, SealStruct, StructFits;
    OwnOffsetDiffers();
    assert Plain(PAIR);
  }

  /** Where `.a` and the item after it go in `struct { int x; struct { int a, b; }; }`. */
  lemma OuterTargets(first: Item, second: Item)
    requires first.at == Some(Direct("a")) && second.at.None?
    ensures First(OUTER, "a", [1, 0]) && OffsetOf(OUTER, "a", [1, 0]) == 4
    ensures First(OUTER, "b", [1, 1]) && OffsetOf(OUTER, "b", [1, 1]) == 8
    ensures Fit(OUTER)
    ensures Target(OUTER, first, Start(OUTER)) == At(INT4, 0, Rest(PAIR.fields[1..]))
    ensures Target(OUTER, second, Rest(PAIR.fields[1..])) == At(INT4, 4, Rest([]))
  {
    hide Fit, NotAfter, Target, SealStruct, StructFits, First;
    OuterFits();
    DesignatedTarget(OUTER, first, [1, 0], Start(OUTER));
    FollowingTarget(OUTER, second, PAIR.fields[1..]);
    assert PAIR.fields[0..] == PAIR.fields && PAIR.fields[1..][1..] == [];
    assert [1, 0][1..] == [0] && IsPath(PAIR, "a", [0]) && From(PAIR, "a", [0]) == PAIR.fields;
    assert From(OUTER, "a", [1, 0]) == PAIR.fields;
  }

  /**
   `struct { int x; struct { int a, b; }; } o = { .a = 1, 2 };` writes both values at the offsets the
   inner struct gives its members: the 1 over `o.x`, and the 2 over `o.a`. Nothing reaches `o.b`.
   */
  lemma AnonymousMisplaced(buf: seq<byte>)
    requires |buf| == 12
    ensures var init := Braces([Item(Some(Direct("a")), Single(IntLit(1))), Item(None, Single(IntLit(2)))]);
            Fit(OUTER) && Fill(OUTER, init, 0, buf) == WriteAt(WriteAt(buf, 0, Encode(4, 1)), 4, Encode(4, 2))
    ensures First(OUTER, "a", [1, 0]) && OffsetOf(OUTER, "a", [1, 0]) == 4
    ensures First(OUTER, "b", [1, 1]) && OffsetOf(OUTER, "b", [1, 1]) == 8
  {
    hide Encode, Complete, Fill, First, Target, WriteAt;
    var first, second := Item(Some(Direct("a")), Single(IntLit(1))), Item(None, Single(IntLit(2)));
    OuterTargets(first, second);
    TwoItems(OUTER, Braces([first, second]), 0, buf, INT4, 0, Rest(PAIR.fields[1..]), INT4, 4, Rest([]));
    var buf1 := WriteAt(buf, 0, Encode(4, 1));
    FillSingle(INT4, first.init, 0, buf);
    FillSingle(INT4, second.init, 4, buf1);
  }
}
