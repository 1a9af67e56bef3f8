/**
 Struct and union layout: what sealing computes, against an independent statement of the packing
 rule, and the facts the rest of the compiler relies on for every complete type.
 */
module Layout {
  import opened Wrappers
  import opened Bits
  import opened RegAlloc
  import opened Types

  /** The least multiple of `al` that is at least `x`. */
  function LeastMultiple(x: int, al: int): int
    requires al > 0
  {
    (x + al - 1) / al * al
  }

  /** Sizes and offsets are C `int`s that rounding up does not overflow. */
  const LIMIT := 0x7FFF_FFF0

  predicate SizeOk(t: Type) {
    0 <= Sizeof(t) < LIMIT && Alignment(Alignof(t)) && Sizeof(t) % Alignof(t) == 0
  }

  /** C99 section 6.7.2.1: a bit-field has an integer type and is no wider than it. */
  predicate FieldOk(f: Field) {
    SizeOk(f.ty) && f.width >= -1 && (f.width >= 0 ==> IsInteger(f.ty) && f.width <= 8 * Sizeof(f.ty))
  }

  predicate FieldsOk(fs: seq<Field>) {
    forall k :: 0 <= k < |fs| ==> FieldOk(fs[k])
  }

  predicate StructFits(fs: seq<Field>) {
    forall k :: 0 <= k <= |fs| ==> After(fs, k).offset < LIMIT
  }

  // ----- the packing rule, stated on a finished list of fields -----

  /** The first byte that no storage of the first `k` fields occupies. */
  function End(gs: seq<Field>, k: nat): int
    requires k <= |gs| && FieldsOk(gs)
  {
    if k == 0 then 0
    else if gs[k - 1].width == 0 then LeastMultiple(End(gs, k - 1), Alignof(gs[k - 1].ty))
    else gs[k - 1].offset + Sizeof(gs[k - 1].ty)
  }

  /** A bit-field goes into its predecessor's storage unit when that has the same shape and room. */
  predicate Shares(gs: seq<Field>, k: nat)
    requires k < |gs|
  {
    && k > 0 && gs[k].width > 0 && gs[k - 1].width > 0
    && Sizeof(gs[k].ty) == Sizeof(gs[k - 1].ty) && Alignof(gs[k].ty) == Alignof(gs[k - 1].ty)
    && gs[k - 1].bitOffset + gs[k - 1].width + gs[k].width <= 8 * Sizeof(gs[k].ty)
  }

  /** Field `k` is where the rule puts it: in the shared unit, or at the least aligned free offset. */
  predicate Lawful(gs: seq<Field>, k: nat)
    requires k < |gs| && FieldsOk(gs)
  {
    if gs[k].width == 0 then true
    else if Shares(gs, k) then
      gs[k].offset == gs[k - 1].offset && gs[k].bitOffset == gs[k - 1].bitOffset + gs[k - 1].width
    else
      gs[k].offset == LeastMultiple(End(gs, k), Alignof(gs[k].ty)) && (gs[k].width > 0 ==> gs[k].bitOffset == 0)
  }

  /** The bits a field occupies, as a half-open range of the object. */
  function BitStart(f: Field): int {
    8 * f.offset + if f.width >= 0 then f.bitOffset else 0
  }

  function BitEnd(f: Field): int {
    if f.width >= 0 then BitStart(f) + f.width else 8 * (f.offset + Sizeof(f.ty))
  }

  // ----- the mask computes the least multiple -----

  lemma MaskIsLeast(x: nat, al: int)
    requires Alignment(al) && x < LIMIT
    ensures AlignUp(x, al) == LeastMultiple(x, al)
    ensures x <= AlignUp(x, al) < x + al && AlignUp(x, al) % al == 0
    ensures forall y :: x <= y && y % al == 0 ==> AlignUp(x, al) <= y
  {
    assert Pow2(0) == 1 && Pow2(1) == 2 && Pow2(2) == 4 && Pow2(3) == 8 && Pow2(4) == 16;
    assert PowerOf2(al);
    Pow63();
    AlignUpIs(x, al);
    AlignUpLeast(x, al);
    RoundedQuotient(x + al - 1, al);
  }

  lemma RoundedQuotient(z: int, al: int)
    requires al > 0
    ensures z - z % al == z / al * al
  {
  }

  /** Of two alignments the smaller divides the larger. */
  lemma AlignmentDivides(a: int, b: int)
    requires Alignment(a) && Alignment(b) && a <= b
    ensures b % a == 0
  {
  }

  lemma {:induction false} DividesThrough(x: int, b: int, a: int)
    requires a > 0 && b > 0 && b % a == 0 && x % b == 0
    ensures x % a == 0
  {
    assert x == b * (x / b) && b == a * (b / a);
    assert x == a * ((b / a) * (x / b)) by {
      assert b * (x / b) == (a * (b / a)) * (x / b);
    }
    DivModUnique(x, a, (b / a) * (x / b), 0);
  }

  // ----- one step of sealing -----

  predicate CursorOk(c: Cursor) {
    && 0 <= c.offset < LIMIT && Alignment(c.maxAlign) && c.next >= 0
    && (c.next > 0 ==> c.offset == c.unitOff + c.unitSize && 0 <= c.unitOff && c.unitSize >= 1
                       && Alignment(c.unitAlign) && c.unitOff % c.unitAlign == 0 && c.next <= 8 * c.unitSize)
  }

  /** The first free bit. */
  function Frontier(c: Cursor): int {
    if c.next > 0 then 8 * c.unitOff + c.next else 8 * c.offset
  }

  /** A placed field starts at or after the frontier and ends at or before the next one. */
  lemma PlaceStep(c: Cursor, f: Field)
    requires CursorOk(c) && FieldOk(f) && Place(c, f).0.offset < LIMIT
    ensures var (c1, g) := Place(c, f);
            && CursorOk(c1) && c.offset <= c1.offset && Frontier(c) <= Frontier(c1) <= 8 * c1.offset
            && c.maxAlign <= c1.maxAlign && Alignof(f.ty) <= c1.maxAlign
            && (f.width != 0 ==>
                 && Frontier(c) <= BitStart(g) <= BitEnd(g) <= Frontier(c1)
                 && 0 <= g.offset && g.offset % Alignof(f.ty) == 0 && g.offset + Sizeof(f.ty) <= c1.offset
                 && (f.width > 0 ==> 0 <= g.bitOffset && g.bitOffset + f.width <= 8 * Sizeof(f.ty)))
  {
    hide AlignUp, Sizeof, Alignof;
    MaskIsLeast(c.offset, Alignof(f.ty));
  }

  /** `PlaceStep` for the cursor that sealing reaches. */
  lemma StepAt(fs: seq<Field>, k: nat)
    requires FieldsOk(fs) && StructFits(fs) && k < |fs| && CursorOk(After(fs, k))
    ensures var c, c1, f, g := After(fs, k), After(fs, k + 1), fs[k], PlacedField(fs, k);
            && CursorOk(c1) && c.offset <= c1.offset && Frontier(c) <= Frontier(c1) <= 8 * c1.offset
            && c.maxAlign <= c1.maxAlign && Alignof(f.ty) <= c1.maxAlign
            && (f.width != 0 ==>
                 && Frontier(c) <= BitStart(g) <= BitEnd(g) <= Frontier(c1)
                 && 0 <= g.offset && g.offset % Alignof(f.ty) == 0 && g.offset + Sizeof(f.ty) <= c1.offset
                 && (f.width > 0 ==> 0 <= g.bitOffset && g.bitOffset + f.width <= 8 * Sizeof(f.ty)))
  {
    hide Place, CursorOk, Frontier, BitStart, BitEnd, Sizeof, Alignof, FieldOk;
    assert FieldOk(fs[k]) && After(fs, k + 1).offset < LIMIT;
    assert After(fs, k + 1) == Place(After(fs, k), fs[k]).0;
    PlaceStep(After(fs, k), fs[k]);
  }

  lemma {:induction false} AfterOk(fs: seq<Field>, k: nat)
    requires FieldsOk(fs) && StructFits(fs) && k <= |fs|
    ensures CursorOk(After(fs, k))
    decreases k
  {
    hide Place, CursorOk;
    if k > 0 {
      AfterOk(fs, k - 1);
      StepAt(fs, k - 1);
    } else {
      assert CursorOk(After(fs, 0)) by { StartOk(fs); }
    }
  }

  lemma StartOk(fs: seq<Field>)
    ensures CursorOk(After(fs, 0))
  {
  }

  /** The frontier and the largest alignment never go back. */
  lemma {:induction false} AfterGrows(fs: seq<Field>, j: nat, k: nat)
    requires FieldsOk(fs) && StructFits(fs) && j <= k <= |fs|
    ensures After(fs, j).offset <= After(fs, k).offset && Frontier(After(fs, j)) <= Frontier(After(fs, k))
    ensures After(fs, j).maxAlign <= After(fs, k).maxAlign
    decreases k
  {
    hide Place, CursorOk, Frontier;
    if j < k {
      AfterGrows(fs, j, k - 1);
      AfterOk(fs, k - 1);
      StepAt(fs, k - 1);
    }
  }

  lemma PlacedKeeps(fs: seq<Field>, k: nat)
    requires k < |fs|
    ensures PlacedField(fs, k).ty == fs[k].ty && PlacedField(fs, k).width == fs[k].width
    ensures PlacedField(fs, k).name == fs[k].name
  {
  }

  /** What holds of each field by itself. */
  lemma FieldPlaced(fs: seq<Field>, k: nat)
    requires FieldsOk(fs) && StructFits(fs) && k < |fs|
    ensures var g, n := PlacedField(fs, k), |fs|;
            && Alignof(g.ty) <= After(fs, n).maxAlign
            && (g.width != 0 ==>
                 && Frontier(After(fs, k)) <= BitStart(g) <= BitEnd(g) <= Frontier(After(fs, k + 1))
                 && 0 <= g.offset && g.offset % Alignof(g.ty) == 0 && g.offset + Sizeof(g.ty) <= After(fs, n).offset
                 && (g.width > 0 ==> 0 <= g.bitOffset && g.bitOffset + g.width <= 8 * Sizeof(g.ty)))
  {
    hide Place, After, PlacedField, CursorOk, Frontier, BitStart, BitEnd, Sizeof, Alignof;
    PlacedKeeps(fs, k);
    AfterOk(fs, k);
    StepAt(fs, k);
    AfterGrows(fs, k + 1, |fs|);
  }

  // ----- the packing rule -----

  /** The cursor remembers exactly what the rule looks at. */
  predicate Remembers(c: Cursor, gs: seq<Field>, k: nat)
    requires k <= |gs| && FieldsOk(gs)
  {
    && c.offset == End(gs, k)
    && (c.next > 0 <==> k > 0 && gs[k - 1].width > 0)
    && (c.next > 0 ==>
          && c.unitOff == gs[k - 1].offset && c.next == gs[k - 1].bitOffset + gs[k - 1].width
          && c.unitSize == Sizeof(gs[k - 1].ty) && c.unitAlign == Alignof(gs[k - 1].ty))
  }

  function PlacedFields(fs: seq<Field>): (gs: seq<Field>)
    ensures |gs| == |fs| && forall k :: 0 <= k < |fs| ==> gs[k] == PlacedField(fs, k)
  {
    seq(|fs|, k requires 0 <= k < |fs| => PlacedField(fs, k))
  }

  lemma PlacedOk(fs: seq<Field>)
    requires FieldsOk(fs)
    ensures FieldsOk(PlacedFields(fs))
  {
    forall k | 0 <= k < |fs|
      ensures FieldOk(PlacedFields(fs)[k])
    {
      PlacedKeeps(fs, k);
      assert FieldOk(fs[k]);
    }
  }

  lemma RuleStep(fs: seq<Field>, k: nat)
    requires FieldsOk(fs) && StructFits(fs) && k < |fs| && FieldsOk(PlacedFields(fs))
    requires Remembers(After(fs, k), PlacedFields(fs), k)
    ensures Lawful(PlacedFields(fs), k) && Remembers(After(fs, k + 1), PlacedFields(fs), k + 1)
  {
    hide AlignUp, Place, Lawful, Remembers;
    AfterOk(fs, k);
    PlacedKeeps(fs, k);
    assert FieldOk(fs[k]);
    MaskIsLeast(After(fs, k).offset, Alignof(fs[k].ty));
    RulePlace(After(fs, k), fs[k], PlacedFields(fs), k);
  }

  lemma RulePlace(c: Cursor, f: Field, gs: seq<Field>, k: nat)
    requires k < |gs| && FieldsOk(gs) && Remembers(c, gs, k) && FieldOk(f) && c.next >= 0
    requires gs[k] == Place(c, f).1 && AlignUp(c.offset, Alignof(f.ty)) == LeastMultiple(c.offset, Alignof(f.ty))
    ensures Lawful(gs, k) && Remembers(Place(c, f).0, gs, k + 1)
  {
    hide AlignUp, Sizeof, Alignof;
  }

  lemma {:induction false} RuleUpTo(fs: seq<Field>, k: nat)
    requires FieldsOk(fs) && StructFits(fs) && k <= |fs| && FieldsOk(PlacedFields(fs))
    ensures Remembers(After(fs, k), PlacedFields(fs), k)
    ensures forall j :: 0 <= j < k ==> Lawful(PlacedFields(fs), j)
    decreases k
  {
    hide Place, After, PlacedField, PlacedFields, Lawful, Remembers, FieldsOk, StructFits;
    if k == 0 {
      RuleStart(fs);
    } else {
      RuleUpTo(fs, k - 1);
      RuleStep(fs, k - 1);
    }
  }

  lemma RuleStart(fs: seq<Field>)
    requires FieldsOk(PlacedFields(fs))
    ensures Remembers(After(fs, 0), PlacedFields(fs), 0)
  {
    hide FieldsOk;
  }

  /** Largest alignment of any field, zero-width ones included. */
  lemma {:induction false} LargestAlign(fs: seq<Field>, k: nat)
    requires FieldsOk(fs) && k <= |fs|
    ensures After(fs, k).maxAlign == MaxAlign(fs, k)
    decreases k
  {
    hide AlignUp, Sizeof, Alignof, FieldOk;
    if k > 0 {
      LargestAlign(fs, k - 1);
    }
  }

  /**
   Struct layout, for every list of fields of complete types: fields occupy bit ranges in
   declaration order that do not overlap and lie inside the object; every storage unit is aligned
   and inside; the size is the least multiple of the alignment that covers the fields; and each
   field sits exactly where the packing rule puts it.
   */
  lemma StructLayout(fs: seq<Field>)
    requires FieldsOk(fs) && StructFits(fs)
    ensures var t := SealStruct(fs);
            && |t.fields| == |fs| && FieldsOk(t.fields)
            && Alignment(t.align) && t.align == MaxAlign(fs, |fs|)
            && t.size == LeastMultiple(End(t.fields, |fs|), t.align) && 0 <= t.size && t.size % t.align == 0
            && (forall k :: 0 <= k < |fs| ==> Lawful(t.fields, k))
            && (forall k :: 0 <= k < |fs| && t.fields[k].width != 0 ==> InObject(t.fields[k], t.size))
            && (forall k :: 0 <= k < |fs| ==> t.align % Alignof(t.fields[k].ty) == 0)
            && (forall j, k :: 0 <= j < k < |fs| && t.fields[j].width != 0 && t.fields[k].width != 0 ==>
                  BitEnd(t.fields[j]) <= BitStart(t.fields[k]))
  {
    hide Place, After, PlacedField, Frontier, BitStart, BitEnd, Lawful, AlignUp, LeastMultiple, MaxAlign, FieldOk,
         Sizeof, Alignof, End;
    var n, gs, t := |fs|, PlacedFields(fs), SealStruct(fs);
    assert t.fields == gs;
    PlacedOk(fs);
    AfterOk(fs, n);
    MaskIsLeast(After(fs, n).offset, After(fs, n).maxAlign);
    RuleUpTo(fs, n);
    LargestAlign(fs, n);
    forall k | 0 <= k < n
      ensures gs[k].width != 0 ==> InObject(gs[k], t.size)
      ensures Alignof(gs[k].ty) > 0 && t.align % Alignof(gs[k].ty) == 0
    {
      FieldPlaced(fs, k);
      assert FieldOk(gs[k]);
      FieldAligned(gs[k]);
      AlignmentDivides(Alignof(gs[k].ty), t.align);
      AfterGrows(fs, k + 1, n);
      FrontierBelow(fs, k);
      FrontierBelow(fs, n);
    }
    forall j, k | 0 <= j < k < n && gs[j].width != 0 && gs[k].width != 0
      ensures BitEnd(gs[j]) <= BitStart(gs[k])
    {
      FieldPlaced(fs, j);
      FieldPlaced(fs, k);
      AfterGrows(fs, j + 1, k);
    }
  }

  lemma FieldAligned(f: Field)
    requires FieldOk(f)
    ensures Alignment(Alignof(f.ty))
  {
  }

  predicate InObject(g: Field, size: int) {
    && 0 <= g.offset && Alignof(g.ty) > 0 && g.offset % Alignof(g.ty) == 0 && g.offset + Sizeof(g.ty) <= size
    && 0 <= BitStart(g) <= BitEnd(g) <= 8 * size
    && (g.width > 0 ==> 0 <= g.bitOffset && g.bitOffset + g.width <= 8 * Sizeof(g.ty))
  }

  lemma FrontierBelow(fs: seq<Field>, k: nat)
    requires FieldsOk(fs) && StructFits(fs) && k <= |fs|
    ensures 0 <= Frontier(After(fs, 0)) <= Frontier(After(fs, k)) <= 8 * After(fs, k).offset
  {
    hide Place;
    AfterOk(fs, k);
    AfterGrows(fs, 0, k);
  }
}
