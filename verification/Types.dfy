/**
 C types with the LP64 layout of x86-64, and the layout of structs and unions. An aggregate node
 carries what sealing wrote into it: the offsets of its fields, its size and its alignment.
 */
module Types {
  import opened Wrappers
  import opened Bits
  import opened RegAlloc

  datatype Kind =
    | BoolK | CharK | SCharK | UCharK | ShortK | UShortK | IntK | UIntK
    | LongK | ULongK | LLongK | ULLongK | FloatK | DoubleK | LDoubleK | PointerK | EnumK

  datatype Type =
    | Void
    | Func
    | Scalar(kind: Kind)
    | Array(elem: Type, count: int)
    | Unsized(elem: Type)
    | Struct(fields: seq<Field>, size: int, align: int)
    | Union(fields: seq<Field>, size: int, align: int)

  /** `width` is -1 for an ordinary field; `name` is None for an anonymous member. */
  datatype Field = Field(name: Option<string>, ty: Type, width: int, offset: int, bitOffset: int)

  function KindSize(k: Kind): (n: nat)
    ensures n == 1 || n == 2 || n == 4 || n == 8 || n == 16
  {
    match k
    case BoolK => 1
    case CharK => 1
    case SCharK => 1
    case UCharK => 1
    case ShortK => 2
    case UShortK => 2
    case IntK => 4
    case UIntK => 4
    case FloatK => 4
    case EnumK => 4
    case LDoubleK => 16
    case _ => 8
  }

  /** The sizes of the System V ABI for the LP64 model, section 3.1.2; each is also the alignment. */
  lemma ScalarSizes(k: Kind)
    ensures KindSize(k) == 1 <==> k in {BoolK, CharK, SCharK, UCharK}
    ensures KindSize(k) == 2 <==> k in {ShortK, UShortK}
    ensures KindSize(k) == 4 <==> k in {IntK, UIntK, EnumK, FloatK}
    ensures KindSize(k) == 8 <==> k in {LongK, ULongK, LLongK, ULLongK, PointerK, DoubleK}
    ensures KindSize(k) == 16 <==> k == LDoubleK
    ensures Sizeof(Scalar(k)) == Alignof(Scalar(k)) == KindSize(k)
  {
  }

  predicate IsInteger(t: Type) {
    t.Scalar? && t.kind != FloatK && t.kind != DoubleK && t.kind != LDoubleK && t.kind != PointerK
  }

  function Sizeof(t: Type): int {
    match t
    case Scalar(k) => KindSize(k)
    case Array(e, n) => if n <= 0 then -1 else Sizeof(e) * n
    case Struct(_, size, _) => size
    case Union(_, size, _) => size
    case _ => -1
  }

  function Alignof(t: Type): int {
    match t
    case Scalar(k) => KindSize(k)
    case Array(e, _) => Alignof(e)
    case Unsized(e) => Alignof(e)
    case Struct(_, _, al) => if al > 0 then al else 1
    case Union(_, _, al) => if al > 0 then al else 1
    case _ => 1
  }

  // ----- sealing -----

  /** The running variables of `type_seal_struct`; `next` is the first free bit of the current unit. */
  datatype Cursor = Cursor(offset: int, maxAlign: int, unitOff: int, next: int, unitSize: int, unitAlign: int)

  function Max(a: int, b: int): int {
    if a > b then a else b
  }

  /** Place one field and move the cursor past it. */
  function Place(c: Cursor, f: Field): (Cursor, Field) {
    var fa, fs := Alignof(f.ty), Sizeof(f.ty);
    var m := Max(c.maxAlign, fa);
    if f.width >= 0 then
      var unitBits := if fs > 0 then fs * 8 else 32;
      if f.width == 0 then
        var off := if c.next > 0 then c.unitOff + c.unitSize else c.offset;
        (c.(offset := AlignUp(off, fa), maxAlign := m, next := 0), f)
      else if c.next == 0 || c.next + f.width > unitBits || fa != c.unitAlign || fs != c.unitSize then
        var u := AlignUp(c.offset, fa);
        (Cursor(u + fs, m, u, f.width, fs, fa), f.(offset := u, bitOffset := 0))
      else
        (c.(maxAlign := m, next := c.next + f.width), f.(offset := c.unitOff, bitOffset := c.next))
    else
      var off := AlignUp(c.offset, fa);
      (c.(offset := off + fs, maxAlign := m, next := 0), f.(offset := off))
  }

  /** The cursor after the first `k` fields. */
  function After(fs: seq<Field>, k: nat): Cursor
    requires k <= |fs|
  {
    if k == 0 then Cursor(0, 1, 0, 0, 0, 1) else Place(After(fs, k - 1), fs[k - 1]).0
  }

  function PlacedField(fs: seq<Field>, k: nat): Field
    requires k < |fs|
  {
    Place(After(fs, k), fs[k]).1
  }

  lemma NothingPlaced(fs: seq<Field>)
    ensures After(fs, 0) == Cursor(0, 1, 0, 0, 0, 1)
  {
  }

  lemma PlaceOne(fs: seq<Field>, k: nat)
    requires k < |fs|
    ensures (After(fs, k + 1), PlacedField(fs, k)) == Place(After(fs, k), fs[k])
  {
    hide Place;
  }

  function SealStruct(fs: seq<Field>): Type {
    var c := After(fs, |fs|);
    Struct(seq(|fs|, k requires 0 <= k < |fs| => PlacedField(fs, k)), AlignUp(c.offset, c.maxAlign), c.maxAlign)
  }

  function MaxAlign(fs: seq<Field>, k: nat): int
    requires k <= |fs|
  {
    if k == 0 then 1 else Max(MaxAlign(fs, k - 1), Alignof(fs[k - 1].ty))
  }

  function MaxSize(fs: seq<Field>, k: nat): int
    requires k <= |fs|
  {
    if k == 0 then 0 else Max(MaxSize(fs, k - 1), Sizeof(fs[k - 1].ty))
  }

  /** All members of a union start at offset 0. */
  function AtZero(f: Field): Field {
    f.(offset := 0, bitOffset := if f.width >= 0 then 0 else f.bitOffset)
  }

  function SealUnion(fs: seq<Field>): Type {
    var al := MaxAlign(fs, |fs|);
    Union(seq(|fs|, k requires 0 <= k < |fs| => AtZero(fs[k])), AlignUp(MaxSize(fs, |fs|), al), al)
  }

  /** An aggregate node, sealed in place once its field list is complete. */
  class Aggregate {
    var fields: seq<Field>
    var size: int
    var align: int

    constructor (fs: seq<Field>)
      ensures fields == fs && size == -1 && align == 1
    {
      fields, size, align := fs, -1, 1;
    }

    method Seal()
      modifies this
      ensures Struct(fields, size, align) == SealStruct(old(fields))
    {
      hide AlignUp, Alignof, Sizeof, After, PlacedField;
      NothingPlaced(fields);
      var offset, maxAlign, unitOff, next, unitSize, unitAlign := 0, 1, 0, 0, 0, 1;
      ghost var fs := fields;
      for i := 0 to |fields|
        invariant |fields| == |fs|
        invariant Cursor(offset, maxAlign, unitOff, next, unitSize, unitAlign) == After(fs, i)
        invariant forall k :: 0 <= k < i ==> fields[k] == PlacedField(fs, k)
        invariant forall k :: i <= k < |fs| ==> fields[k] == fs[k]
      {
        var f := fields[i];
        ghost var c := After(fs, i);
        assert f == fs[i];
        var fa, size := Alignof(f.ty), Sizeof(f.ty);
        if fa > maxAlign { maxAlign := fa; }
        if f.width >= 0 {
          var unitBits := if size > 0 then size * 8 else 32;
          if f.width == 0 {
            if next > 0 { offset := unitOff + unitSize; }
            offset := AlignUp(offset, fa);
            next := 0;
          } else {
            if next == 0 || next + f.width > unitBits || fa != unitAlign || size != unitSize {
              offset := AlignUp(offset, fa);
              unitOff, unitSize, unitAlign, next := offset, size, fa, 0;
              offset := offset + size;
            }
            fields := fields[i := f.(offset := unitOff, bitOffset := next)];
            next := next + f.width;
          }
        } else {
          next := 0;
          offset := AlignUp(offset, fa);
          fields := fields[i := f.(offset := offset)];
          offset := offset + size;
        }
        assert Place(c, f) == (Cursor(offset, maxAlign, unitOff, next, unitSize, unitAlign), fields[i]);
        PlaceOne(fs, i);
      }
      size := AlignUp(offset, maxAlign);
      align := maxAlign;
    }

    method SealAsUnion()
      modifies this
      ensures Union(fields, size, align) == SealUnion(old(fields))
    {
      var maxSize, maxAlign := 0, 1;
      ghost var fs := fields;
      for i := 0 to |fields|
        invariant |fields| == |fs|
        invariant maxSize == MaxSize(fs, i) && maxAlign == MaxAlign(fs, i)
        invariant forall k :: 0 <= k < i ==> fields[k] == AtZero(fs[k])
        invariant forall k :: i <= k < |fs| ==> fields[k] == fs[k]
      {
        var f := fields[i];
        f := f.(offset := 0);
        if f.width >= 0 { f := f.(bitOffset := 0); }
        fields := fields[i := f];
        if Alignof(f.ty) > maxAlign { maxAlign := Alignof(f.ty); }
        if Sizeof(f.ty) > maxSize { maxSize := Sizeof(f.ty); }
      }
      size := AlignUp(maxSize, maxAlign);
      align := maxAlign;
    }
  }
}
