/**
 Complete types, built up from scalars by arrays and sealed aggregates, and what holds of every one
 of them: a size that is a multiple of a small power-of-two alignment, and scalars at every
 aligned offset.
 */
module CompleteTypes {
  import opened Wrappers
  import opened Bits
  import opened RegAlloc
  import opened Types
  import opened Layout

  /** The constraints on the fields themselves; their types are complete. */
  predicate WidthOk(f: Field) {
    f.width >= -1 && (f.width >= 0 ==> IsInteger(f.ty) && f.width <= 8 * Sizeof(f.ty))
  }

  predicate Complete(t: Type) {
    match t
    case Scalar(_) => true
    case Array(e, n) => n > 0 && Complete(e) && Sizeof(e) * n < LIMIT
    case Struct(fs, _, _) =>
      && (forall i :: 0 <= i < |fs| ==> Complete(fs[i].ty) && WidthOk(fs[i]))
      && StructFits(fs) && t == SealStruct(fs) && t.size < LIMIT
    case Union(fs, _, _) =>
      && (forall i :: 0 <= i < |fs| ==> Complete(fs[i].ty) && WidthOk(fs[i]))
      && t == SealUnion(fs) && t.size < LIMIT
    case _ => false
  }

  // ----- unions -----

  lemma {:induction false} MaxAlignOk(fs: seq<Field>, k: nat)
    requires FieldsOk(fs) && k <= |fs|
    ensures Alignment(MaxAlign(fs, k)) && 0 <= MaxSize(fs, k) < LIMIT
    ensures forall i :: 0 <= i < k ==> Alignof(fs[i].ty) <= MaxAlign(fs, k) && Sizeof(fs[i].ty) <= MaxSize(fs, k)
    ensures MaxSize(fs, k) == 0 || exists i :: 0 <= i < k && Sizeof(fs[i].ty) == MaxSize(fs, k)
    decreases k
  {
    if k > 0 {
      MaxAlignOk(fs, k - 1);
      assert FieldOk(fs[k - 1]);
    }
  }

  /**
   Union layout: every member starts at offset 0 and lies inside; the size is the least multiple of
   the alignment that covers the largest member.
   */
  lemma UnionLayout(fs: seq<Field>)
    requires FieldsOk(fs)
    ensures var t := SealUnion(fs);
            && |t.fields| == |fs| && Alignment(t.align)
            && t.size == LeastMultiple(MaxSize(fs, |fs|), t.align) && 0 <= t.size && t.size % t.align == 0
            && (forall k :: 0 <= k < |fs| ==>
                  && t.fields[k].ty == fs[k].ty && t.fields[k].width == fs[k].width && t.fields[k].offset == 0
                  && Sizeof(fs[k].ty) <= MaxSize(fs, |fs|) <= t.size
                  && Alignof(fs[k].ty) > 0 && t.align % Alignof(fs[k].ty) == 0
                  && 0 <= BitStart(t.fields[k]) <= BitEnd(t.fields[k]) <= 8 * t.size)
  {
    hide AlignUp, LeastMultiple, MaxSize, MaxAlign, Sizeof, Alignof;
    var t, n := SealUnion(fs), |fs|;
    MaxAlignOk(fs, n);
    MaskIsLeast(MaxSize(fs, n), MaxAlign(fs, n));
    forall k | 0 <= k < n
      ensures Alignof(fs[k].ty) > 0 && t.align % Alignof(fs[k].ty) == 0
      ensures 0 <= BitStart(t.fields[k]) <= BitEnd(t.fields[k]) <= 8 * t.size
    {
      assert FieldOk(fs[k]);
      AlignmentDivides(Alignof(fs[k].ty), t.align);
    }
  }

  // ----- every complete type -----

  lemma TimesAligned(size: int, n: int, al: int)
    requires size >= 0 && n > 0 && al > 0 && size % al == 0
    ensures size * n >= 0 && (size * n) % al == 0
  {
    assert size * n == al * ((size / al) * n) by {
      assert size == al * (size / al);
    }
    DivModUnique(size * n, al, (size / al) * n, 0);
  }

  lemma ArraySizeOk(e: Type, n: int)
    requires SizeOk(e) && n > 0 && Sizeof(e) * n < LIMIT
    ensures SizeOk(Array(e, n))
  {
    TimesAligned(Sizeof(e), n, Alignof(e));
  }

  lemma StructSizeOk(fs: seq<Field>)
    requires FieldsOk(fs) && StructFits(fs) && SealStruct(fs).size < LIMIT
    ensures SizeOk(SealStruct(fs))
  {
    hide AlignUp, After, PlacedField, StructFits, FieldsOk;
    StructLayout(fs);
  }

  lemma UnionSizeOk(fs: seq<Field>)
    requires FieldsOk(fs) && SealUnion(fs).size < LIMIT
    ensures SizeOk(SealUnion(fs))
  {
    hide AlignUp, MaxSize, MaxAlign, FieldsOk;
    UnionLayout(fs);
  }

  /** The size of a complete type is a multiple of its alignment, a power of two of at most 16. */
  lemma {:induction false} SizeIsAligned(t: Type)
    requires Complete(t)
    ensures SizeOk(t)
    ensures t.Struct? || t.Union? ==> FieldsOk(t.fields)
    decreases t
  {
    hide SizeOk, StructFits, SealStruct, SealUnion;
    match t
    case Scalar(k) => assert SizeOk(Scalar(k)) by { ScalarSizeOk(k); }
    case Array(e, n) =>
      SizeIsAligned(e);
      ArraySizeOk(e, n);
    case Struct(fs, _, _) =>
      forall i | 0 <= i < |fs| ensures FieldOk(fs[i]) { SizeIsAligned(fs[i].ty); }
      StructSizeOk(fs);
    case Union(fs, _, _) =>
      forall i | 0 <= i < |fs| ensures FieldOk(fs[i]) { SizeIsAligned(fs[i].ty); }
      UnionSizeOk(fs);
  }

  lemma ScalarSizeOk(k: Kind)
    ensures SizeOk(Scalar(k))
  {
  }

  // ----- sealing makes complete types -----

  lemma {:induction false} SameCursor(fs: seq<Field>, gs: seq<Field>, k: nat)
    requires |gs| == |fs| && k <= |fs|
    requires forall i :: 0 <= i < |fs| ==> gs[i] == fs[i].(offset := gs[i].offset, bitOffset := gs[i].bitOffset)
    ensures After(gs, k) == After(fs, k)
    decreases k
  {
    hide AlignUp, Sizeof, Alignof;
    if k > 0 {
      SameCursor(fs, gs, k - 1);
    }
  }

  /** Sealing looks only at the types and widths of the fields, so sealing again changes nothing. */
  lemma SealedComplete(fs: seq<Field>)
    requires forall i :: 0 <= i < |fs| ==> Complete(fs[i].ty) && WidthOk(fs[i])
    ensures StructFits(fs) && SealStruct(fs).size < LIMIT ==> Complete(SealStruct(fs))
    ensures SealUnion(fs).size < LIMIT ==> Complete(SealUnion(fs))
  {
    hide SealStruct, SealUnion, StructFits, Sizeof;
    ResealStruct(fs);
    ResealUnion(fs);
    var gs, us := SealStruct(fs).fields, SealUnion(fs).fields;
    forall i | 0 <= i < |fs|
      ensures Complete(gs[i].ty) && WidthOk(gs[i]) && Complete(us[i].ty) && WidthOk(us[i])
    {
      assert Complete(fs[i].ty) && WidthOk(fs[i]);
    }
  }

  lemma ResealStruct(fs: seq<Field>)
    ensures var t := SealStruct(fs);
            && t.Struct? && |t.fields| == |fs| && SealStruct(t.fields) == t && (StructFits(fs) ==> StructFits(t.fields))
            && forall k :: 0 <= k < |fs| ==> t.fields[k].ty == fs[k].ty && t.fields[k].width == fs[k].width
  {
    hide AlignUp, Sizeof, Alignof;
    var gs := SealStruct(fs).fields;
    forall k | 0 <= k < |fs|
      ensures gs[k] == fs[k].(offset := gs[k].offset, bitOffset := gs[k].bitOffset)
    {
      assert gs[k] == PlacedField(fs, k);
    }
    forall k | 0 <= k <= |fs|
      ensures After(gs, k) == After(fs, k)
    {
      SameCursor(fs, gs, k);
    }
    forall k | 0 <= k < |fs|
      ensures PlacedField(gs, k) == gs[k]
    {
      assert gs[k] == PlacedField(fs, k) && After(gs, k) == After(fs, k);
    }
    assert SealStruct(gs).fields == gs;
  }

  lemma ResealUnion(fs: seq<Field>)
    ensures var t := SealUnion(fs);
            && t.Union? && |t.fields| == |fs| && SealUnion(t.fields) == t
            && forall k :: 0 <= k < |fs| ==> t.fields[k].ty == fs[k].ty && t.fields[k].width == fs[k].width
  {
    hide AlignUp, Sizeof, Alignof;
    var us := SealUnion(fs).fields;
    SameMaxima(fs, us, |fs|);
    assert SealUnion(us).fields == us;
  }

  lemma {:induction false} SameMaxima(fs: seq<Field>, gs: seq<Field>, k: nat)
    requires |gs| == |fs| && k <= |fs| && forall i :: 0 <= i < |fs| ==> gs[i].ty == fs[i].ty
    ensures MaxSize(gs, k) == MaxSize(fs, k) && MaxAlign(gs, k) == MaxAlign(fs, k)
    decreases k
  {
    if k > 0 {
      SameMaxima(fs, gs, k - 1);
    }
  }

  // ----- scalars at aligned offsets -----

  /** Offset `o` of an array, seen from its element `i`. */
  function Within(o: int, i: int, size: int): int {
    o - i * size
  }

  /** A scalar of kind `k` (or the storage unit of a bit-field of that kind) starts at offset `o`. */
  ghost predicate LeafAt(t: Type, o: int, k: Kind)
    decreases t
  {
    match t
    case Scalar(k1) => o == 0 && k == k1
    case Array(e, n) => exists i: int :: 0 <= i < n && LeafAt(e, Within(o, i, Sizeof(e)), k)
    case Struct(fs, _, _) => exists j :: 0 <= j < |fs| && fs[j].width != 0 && LeafAt(fs[j].ty, o - fs[j].offset, k)
    case Union(fs, _, _) => exists j :: 0 <= j < |fs| && fs[j].width != 0 && LeafAt(fs[j].ty, o - fs[j].offset, k)
    case _ => false
  }

  lemma LeastIsLeast(x: int, al: int, y: int)
    requires al > 0 && y % al == 0 && x <= y
    ensures LeastMultiple(x, al) <= y
  {
    RoundedQuotient(x + al - 1, al);
    RoundedIsLeast(x, al, y);
  }

  lemma RoundedIsLeast(x: int, al: int, y: int)
    requires al > 0 && y % al == 0 && x <= y
    ensures (x + al - 1) - (x + al - 1) % al <= y
  {
    var z := x + al - 1;
    RoundDown(z, al);
    if y < z - z % al {
      MultiplesApart(z - z % al, y, al);
    }
  }

  predicate MultipleOf(q: int, al: int) {
    al > 0 && q % al == 0
  }

  /** Below the end of the first `k` fields, an offset that is a multiple of every alignment is in a field. */
  lemma {:induction false} Covered(gs: seq<Field>, q: int, k: nat) returns (j: nat)
    requires k <= |gs| && FieldsOk(gs) && 0 <= q < End(gs, k)
    requires forall i :: 0 <= i < k ==> Lawful(gs, i)
    requires forall i :: 0 <= i < k ==> MultipleOf(q, Alignof(gs[i].ty))
    ensures j < k && gs[j].width != 0 && gs[j].offset <= q < gs[j].offset + Sizeof(gs[j].ty)
    decreases k
  {
    var g, al := gs[k - 1], Alignof(gs[k - 1].ty);
    assert Lawful(gs, k - 1) && MultipleOf(q, al);
    if g.width == 0 || (!Shares(gs, k - 1) && q < g.offset) {
      if End(gs, k - 1) <= q {
        LeastIsLeast(End(gs, k - 1), al, q);
      }
      j := Covered(gs, q, k - 1);
    } else if g.offset <= q {
      j := k - 1;
    } else {
      j := Covered(gs, q, k - 1);
    }
  }

  /** No zero-width bit-field anywhere in the type. */
  predicate NoZeroWidth(t: Type) {
    match t
    case Array(e, _) => NoZeroWidth(e)
    case Struct(fs, _, _) => forall i :: 0 <= i < |fs| ==> fs[i].width != 0 && NoZeroWidth(fs[i].ty)
    case Union(fs, _, _) => forall i :: 0 <= i < |fs| ==> fs[i].width != 0 && NoZeroWidth(fs[i].ty)
    case _ => true
  }

  /** Every multiple of the alignment inside a complete type is the offset of a scalar. */
  lemma {:induction false} LeafAtMultiple(t: Type, q: int) returns (k: Kind)
    requires Complete(t) && NoZeroWidth(t) && 0 <= q < Sizeof(t) && MultipleOf(q, Alignof(t))
    ensures LeafAt(t, q, k)
    decreases t
  {
    hide StructFits, SealStruct, SealUnion, SizeOk, MultipleOf;
    match t
    case Scalar(k1) =>
      k := k1;
      ScalarMultiple(k1, q);
    case Array(e, n) =>
      SizeIsAligned(e);
      var i, r := ArrayIndex(e, n, q);
      k := LeafAtMultiple(e, r);
      assert LeafAt(e, Within(q, i, Sizeof(e)), k);
      assert LeafAt(t, q, k);
    case Struct(fs, size, al) =>
      SizeIsAligned(t);
      StructAlign(t);
      var j := FieldUnder(t, q);
      k := LeafAtMultiple(fs[j].ty, q - fs[j].offset);
      assert LeafAt(t, q, k);
    case Union(fs, size, al) =>
      SizeIsAligned(t);
      StructAlign(t);
      var j := MemberUnder(t, q);
      k := LeafAtMultiple(fs[j].ty, q - fs[j].offset);
      assert LeafAt(t, q, k);
  }

  lemma ScalarMultiple(k: Kind, q: int)
    requires 0 <= q < KindSize(k) && MultipleOf(q, KindSize(k))
    ensures q == 0
  {
  }

  lemma StructAlign(t: Type)
    requires Complete(t) && (t.Struct? || t.Union?) && FieldsOk(t.fields)
    ensures t.align > 0 && Alignof(t) == t.align
  {
    hide AlignUp, Sizeof, LeastMultiple;
    if t.Struct? {
      StructLayout(t.fields);
    } else {
      UnionLayout(t.fields);
    }
  }

  lemma RemainderAligned(q: int, size: int, al: int)
    requires size > 0 && al > 0 && size % al == 0 && q % al == 0
    ensures (q % size) % al == 0
  {
    var a, b, i := q / al, size / al, q / size;
    assert q == al * a && size == al * b;
    assert size * i == al * (b * i) by {
      assert (al * b) * i == al * (b * i);
    }
    assert q % size == al * (a - b * i) by {
      assert q % size == q - size * i;
    }
    DivModUnique(q % size, al, a - b * i, 0);
  }

  lemma IndexBelow(q: int, size: int, n: int)
    requires 0 <= q < size * n && size > 0
    ensures 0 <= q / size < n
  {
    if q / size >= n {
      MulMonotone(size, n, q / size);
    }
  }

  lemma ArrayIndex(e: Type, n: int, q: int) returns (i: int, r: int)
    requires SizeOk(e) && n > 0 && 0 <= q < Sizeof(e) * n && MultipleOf(q, Alignof(e))
    ensures 0 <= i < n && q - i * Sizeof(e) == r && 0 <= r < Sizeof(e) && MultipleOf(r, Alignof(e))
  {
    var size, al := Sizeof(e), Alignof(e);
    i, r := q / size, q % size;
    IndexBelow(q, size, n);
    RemainderAligned(q, size, al);
  }

  lemma MulMonotone(m: int, a: int, b: int)
    requires m >= 0 && a <= b
    ensures m * a <= m * b
  {
  }

  lemma MultiplePart(q: int, big: int, al: int)
    requires MultipleOf(q, big) && MultipleOf(big, al)
    ensures MultipleOf(q, al)
  {
    DividesThrough(q, big, al);
  }

  lemma MultipleDifference(q: int, o: int, al: int)
    requires MultipleOf(q, al) && MultipleOf(o, al)
    ensures MultipleOf(q - o, al)
  {
    Multiples(q, o, 0, al);
  }

  /** The layout theorem for a complete struct, as the search for the field under an offset needs it. */
  lemma StructFacts(t: Type)
    requires Complete(t) && t.Struct?
    ensures FieldsOk(t.fields) && t.align > 0 && t.size == LeastMultiple(End(t.fields, |t.fields|), t.align)
    ensures forall i :: 0 <= i < |t.fields| ==> Lawful(t.fields, i) && MultipleOf(t.align, Alignof(t.fields[i].ty))
    ensures forall i :: 0 <= i < |t.fields| && t.fields[i].width != 0 ==>
              MultipleOf(t.fields[i].offset, Alignof(t.fields[i].ty))
  {
    hide Lawful, End, SealStruct, LeastMultiple, BitStart, BitEnd, Sizeof, Alignof;
    SizeIsAligned(t);
    StructLayout(t.fields);
    forall i | 0 <= i < |t.fields| && t.fields[i].width != 0
      ensures MultipleOf(t.fields[i].offset, Alignof(t.fields[i].ty))
    {
      assert InObject(t.fields[i], t.size);
    }
  }

  lemma LeastOfMultiples(x: int, al: int, y: int)
    requires MultipleOf(y, al) && x <= y
    ensures LeastMultiple(x, al) <= y
  {
    LeastIsLeast(x, al, y);
  }

  lemma FieldUnder(t: Type, q: int) returns (j: nat)
    requires Complete(t) && t.Struct? && 0 <= q < t.size && MultipleOf(q, t.align)
    ensures j < |t.fields| && t.fields[j].width != 0
    ensures var g := t.fields[j]; 0 <= q - g.offset < Sizeof(g.ty) && MultipleOf(q - g.offset, Alignof(g.ty))
  {
    hide Lawful, End, Complete, MultipleOf, Sizeof, Alignof, LeastMultiple, FieldsOk;
    var gs, al := t.fields, t.align;
    StructFacts(t);
    forall i | 0 <= i < |gs|
      ensures MultipleOf(q, Alignof(gs[i].ty))
    {
      MultiplePart(q, al, Alignof(gs[i].ty));
    }
    if End(gs, |gs|) <= q {
      LeastOfMultiples(End(gs, |gs|), al, q);
    }
    j := Covered(gs, q, |gs|);
    MultipleDifference(q, gs[j].offset, Alignof(gs[j].ty));
  }

  lemma UnionFacts(t: Type)
    requires Complete(t) && t.Union?
    ensures FieldsOk(t.fields) && t.align > 0 && t.size == LeastMultiple(MaxSize(t.fields, |t.fields|), t.align)
    ensures forall i :: 0 <= i < |t.fields| ==>
              t.fields[i].offset == 0 && MultipleOf(t.align, Alignof(t.fields[i].ty))
  {
    hide LeastMultiple, MaxSize, MaxAlign, Sizeof, Alignof, AlignUp, BitStart, BitEnd;
    SizeIsAligned(t);
    UnionLayout(t.fields);
    assert t.fields == SealUnion(t.fields).fields;
  }

  lemma MemberUnder(t: Type, q: int) returns (j: nat)
    requires Complete(t) && t.Union? && 0 <= q < t.size && MultipleOf(q, t.align)
    requires forall i :: 0 <= i < |t.fields| ==> t.fields[i].width != 0
    ensures j < |t.fields| && t.fields[j].width != 0
    ensures var g := t.fields[j]; 0 <= q - g.offset < Sizeof(g.ty) && MultipleOf(q - g.offset, Alignof(g.ty))
  {
    hide Complete, MultipleOf, Sizeof, Alignof, LeastMultiple, MaxSize, MaxAlign, FieldsOk;
    var gs, al := t.fields, t.align;
    UnionFacts(t);
    MaxAlignOk(gs, |gs|);
    if MaxSize(gs, |gs|) <= q {
      LeastOfMultiples(MaxSize(gs, |gs|), al, q);
    }
    var i :| 0 <= i < |gs| && Sizeof(gs[i].ty) == MaxSize(gs, |gs|);
    j := i;
    MultiplePart(q, al, Alignof(gs[j].ty));
  }

  // ----- consequences for the frame -----

  /** The region that an object of type `t` asks the allocator for. */
  function RegionFor(temp: nat, t: Type): Region {
    var size, al := Sizeof(t), Alignof(t);
    Region(temp, if size > 0 then size else 8, if al > 0 then al else 8)
  }

  /** Every object of a complete type is aligned in a frame whose %rbp is 16-aligned. */
  lemma ObjectsAligned(temps: seq<nat>, ts: seq<Type>, rs: seq<Region>, n: nat, rbp: int)
    requires |temps| == |ts| == |rs| && rbp % 16 == 0 && Fits(rs, 8 * n)
    requires forall k :: 0 <= k < |rs| ==> rs[k] == RegionFor(temps[k], ts[k]) && Complete(ts[k])
    ensures Requests(rs)
    ensures forall k :: 0 <= k < |rs| && Sizeof(ts[k]) > 0 ==>
              Alignof(ts[k]) > 0 && (rbp + Offset(rs, 8 * n, k)) % Alignof(ts[k]) == 0
  {
    forall k | 0 <= k < |rs|
      ensures rs[k].size >= 1 && Alignment(rs[k].align)
    {
      SizeIsAligned(ts[k]);
    }
    forall k | 0 <= k < |rs| && Sizeof(ts[k]) > 0
      ensures Alignof(ts[k]) > 0 && (rbp + Offset(rs, 8 * n, k)) % Alignof(ts[k]) == 0
    {
      SizeIsAligned(ts[k]);
      RegionAligned(rs, n, k, rbp);
    }
  }

  // ----- bit-fields wider than their type, which sealing accepts -----

  lemma {:induction false} NextNonNegative(fs: seq<Field>, k: nat)
    requires k <= |fs|
    ensures After(fs, k).next >= 0
    decreases k
  {
    hide AlignUp, Sizeof, Alignof;
    if k > 0 {
      NextNonNegative(fs, k - 1);
    }
  }

  /** The bits of a field stay inside its own storage unit. */
  predicate InUnit(g: Field) {
    0 <= g.bitOffset && g.bitOffset + g.width <= 8 * Sizeof(g.ty)
  }

  /** For every list of fields whatever: a bit-field stays in its unit exactly when it is not wider than its type. */
  lemma InUnitExact(fs: seq<Field>, k: nat)
    requires k < |fs| && fs[k].width > 0 && Sizeof(fs[k].ty) > 0
    ensures InUnit(SealStruct(fs).fields[k]) <==> fs[k].width <= 8 * Sizeof(fs[k].ty)
  {
    hide AlignUp, Sizeof, Alignof, After;
    NextNonNegative(fs, k);
    assert SealStruct(fs).fields[k] == PlacedField(fs, k);
  }

  /** The cursor behind a bit-field that is too wide: no later field shares its unit. */
  lemma AfterTooWide(fs: seq<Field>, k: nat)
    requires k < |fs| && fs[k].width > 8 * Sizeof(fs[k].ty) > 0
    ensures var c, g := After(fs, k + 1), PlacedField(fs, k);
            && c.offset == g.offset + Sizeof(g.ty) && c.next == g.width && g.bitOffset == 0
            && c.unitSize == Sizeof(g.ty) && c.next > 8 * c.unitSize > 0 && g.width == fs[k].width && g.ty == fs[k].ty
  {
    hide AlignUp, Sizeof, Alignof;
    NextNonNegative(fs, k);
  }

  /**
   A bit-field that is too wide runs into the field after it exactly when its excess is more than
   the padding that the next type's alignment calls for, where the running offset then stands.
   */
  lemma TooWideExact(fs: seq<Field>, k: nat)
    requires k + 1 < |fs| && fs[k].width > 8 * Sizeof(fs[k].ty) > 0 && fs[k + 1].width != 0
    ensures var t, end := SealStruct(fs), After(fs, k + 1).offset;
            BitEnd(t.fields[k]) > BitStart(t.fields[k + 1]) <==>
              fs[k].width - 8 * Sizeof(fs[k].ty) > 8 * (AlignUp(end, Alignof(fs[k + 1].ty)) - end)
  {
    hide AlignUp, Sizeof, Alignof, After;
    AfterTooWide(fs, k);
    assert SealStruct(fs).fields[k] == PlacedField(fs, k);
    assert SealStruct(fs).fields[k + 1] == PlacedField(fs, k + 1);
  }

  /** In `char a : 12; char b;` there is no padding, and the first field's bits run into the second's byte. */
  lemma TooWideOverlaps()
    ensures var byteType := Scalar(CharK);
            var t := SealStruct([Field(Some("a"), byteType, 12, 0, 0), Field(Some("b"), byteType, -1, 0, 0)]);
            BitEnd(t.fields[0]) > BitStart(t.fields[1])
  {
    hide AlignUp;
    var byteType := Scalar(CharK);
    var fs := [Field(Some("a"), byteType, 12, 0, 0), Field(Some("b"), byteType, -1, 0, 0)];
    MaskIsLeast(0, 1);
    MaskIsLeast(1, 1);
    TooWideExact(fs, 0);
    assert After(fs, 0) == Cursor(0, 1, 0, 0, 0, 1);
    assert PlacedField(fs, 0).offset == 0;
  }

  /** A scalar lies inside its type. */
  lemma {:induction false} LeafInside(t: Type, o: int, k: Kind)
    requires Complete(t) && LeafAt(t, o, k)
    ensures 0 <= o && o + KindSize(k) <= Sizeof(t)
    decreases t
  {
    hide StructFits, SealStruct, SealUnion, SizeOk;
    if t.Array? {
      var e, n := t.elem, t.count;
      var i: int :| 0 <= i < n && LeafAt(e, Within(o, i, Sizeof(e)), k);
      LeafInside(e, o - i * Sizeof(e), k);
      SizeNonNegative(e);
      MulMonotone(Sizeof(e), i + 1, n);
      MulMonotone(Sizeof(e), 0, i);
      assert Sizeof(e) * (i + 1) == i * Sizeof(e) + Sizeof(e);
    } else if t.Struct? || t.Union? {
      var j :| 0 <= j < |t.fields| && t.fields[j].width != 0 && LeafAt(t.fields[j].ty, o - t.fields[j].offset, k);
      LeafInside(t.fields[j].ty, o - t.fields[j].offset, k);
      FieldInside(t, j);
    }
  }

  lemma SizeNonNegative(t: Type)
    requires Complete(t)
    ensures 0 <= Sizeof(t) < LIMIT && Alignment(Alignof(t))
  {
    SizeIsAligned(t);
  }

  lemma FieldInside(t: Type, j: nat)
    requires Complete(t) && (t.Struct? || t.Union?) && j < |t.fields| && t.fields[j].width != 0
    ensures var g := t.fields[j];
            && 0 <= g.offset && g.offset + Sizeof(g.ty) <= t.size
            && Alignof(g.ty) > 0 && g.offset % Alignof(g.ty) == 0
  {
    hide AlignUp, LeastMultiple, Sizeof, Alignof, BitStart, BitEnd, Lawful, End;
    SizeIsAligned(t);
    if t.Struct? {
      StructLayout(t.fields);
      assert InObject(t.fields[j], t.size);
    } else {
      UnionLayout(t.fields);
      assert SealUnion(t.fields).fields[j].offset == 0;
    }
  }
}
