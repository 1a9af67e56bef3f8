/** Argument classification: eightbytes of small types by class, everything else in memory. */
module Classify {
  import opened Wrappers
  import opened Bits
  import opened RegAlloc
  import opened Types
  import opened Layout
  import opened CompleteTypes

  datatype Class = NoClass | Memory | Integer | Sse | SseUp | X87 | X87Up

  const MAX_EIGHTBYTES := 2

  function Merge(a: Class, b: Class): Class {
    if a == b then a
    else if a == NoClass then b
    else if b == NoClass then a
    else if a == Memory || b == Memory then Memory
    else if a == Integer || b == Integer then Integer
    else if a == X87 || b == X87 || a == X87Up || b == X87Up then Memory
    else Sse
  }

  function AllMemory(n: nat): (cs: seq<Class>)
    ensures |cs| == n && forall e :: 0 <= e < n ==> cs[e] == Memory
  {
    seq(n, e => Memory)
  }

  function MergeAt(cs: seq<Class>, e: nat, c: Class): (r: seq<Class>)
    requires e < |cs|
    ensures |r| == |cs|
  {
    cs[e := Merge(cs[e], c)]
  }

  predicate Misaligned(fs: seq<Field>) {
    exists j :: 0 <= j < |fs| && Alignof(fs[j].ty) > 0 && fs[j].offset % Alignof(fs[j].ty) != 0
  }

  /** The post-merger rules, from eightbyte `i` on. */
  function FixFrom(cs: seq<Class>, i: nat): (r: seq<Class>)
    requires i <= |cs|
    ensures |r| == |cs|
    decreases |cs| - i
  {
    if i == |cs| then cs
    else if cs[i] == Memory then AllMemory(|cs|)
    else if cs[i] == X87Up && (i == 0 || cs[i - 1] != X87) then AllMemory(|cs|)
    else FixFrom(cs, i + 1)
  }

  /** The class of a scalar. */
  function KindClass(k: Kind): Class {
    if k == FloatK || k == DoubleK then Sse else if k == LDoubleK then X87 else Integer
  }

  /** What classifying `t` at `off` does to the classes `cs`. */
  function ClassifyInto(t: Type, off: nat, cs: seq<Class>): (r: seq<Class>)
    ensures |r| == |cs|
    decreases t, 0
  {
    var e := off / 8;
    if e >= |cs| then cs
    else match t
      case Void => cs
      case Func => MergeAt(cs, e, Integer)
      case Scalar(k) =>
        if k == LDoubleK then
          var c1 := MergeAt(cs, e, X87);
          if e + 1 < |cs| then MergeAt(c1, e + 1, X87Up) else c1
        else MergeAt(cs, e, KindClass(k))
      case Array(el, n) => if n <= 0 || Sizeof(el) < 0 then cs else Elements(t, off, n, cs)
      case Unsized(_) => AllMemory(|cs|)
      case _ =>
        if (Sizeof(t) + 7) / 8 > MAX_EIGHTBYTES || Misaligned(t.fields) then AllMemory(|cs|)
        else FixFrom(FieldsInto(t, off, |t.fields|, cs), 0)
  }

  function ElementAt(base: int, i: int, size: int): int {
    base + i * size
  }

  /** The first `m` elements of an array. */
  function Elements(t: Type, off: nat, m: nat, cs: seq<Class>): (r: seq<Class>)
    requires t.Array? && Sizeof(t.elem) >= 0
    ensures |r| == |cs|
    decreases t, 0, m
  {
    if m == 0 then cs
    else
      var prev := Elements(t, off, m - 1, cs);
      ClassifyInto(t.elem, ElementAt(off, m - 1, Sizeof(t.elem)), prev)
  }

  /** The first `m` fields of an aggregate. */
  function FieldsInto(t: Type, off: nat, m: nat, cs: seq<Class>): (r: seq<Class>)
    requires (t.Struct? || t.Union?) && m <= |t.fields|
    ensures |r| == |cs|
    decreases t, 0, m
  {
    if m == 0 then cs
    else
      var f := t.fields[m - 1];
      var prev := FieldsInto(t, off, m - 1, cs);
      if off + f.offset < 0 then prev else ClassifyInto(f.ty, off + f.offset, prev)
  }

  /** The classifier as the code it is: it updates the array of classes in place. */
  method ClassifyRange(t: Type, off: nat, classes: array<Class>)
    modifies classes
    ensures classes[..] == ClassifyInto(t, off, old(classes[..]))
    decreases t
  {
    hide Merge;
    var e := off / 8;
    if e >= classes.Length { return; }
    match t
    case Void =>
    case Func => classes[e] := Merge(classes[e], Integer);
    case Scalar(k) =>
      if k == LDoubleK {
        classes[e] := Merge(classes[e], X87);
        if e + 1 < classes.Length { classes[e + 1] := Merge(classes[e + 1], X87Up); }
      } else {
        classes[e] := Merge(classes[e], KindClass(k));
      }
    case Array(el, n) =>
      var size := Sizeof(el);
      if n <= 0 || size < 0 { return; }
      for i := 0 to n
        invariant classes[..] == Elements(t, off, i, old(classes[..]))
      {
        ClassifyRange(el, off + i * size, classes);
      }
    case Unsized(_) => FillMemory(classes);
    case _ =>
      if (Sizeof(t) + 7) / 8 > MAX_EIGHTBYTES {
        FillMemory(classes);
        return;
      }
      var bad := AnyMisaligned(t.fields);
      if bad {
        FillMemory(classes);
        return;
      }
      for j := 0 to |t.fields|
        invariant classes[..] == FieldsInto(t, off, j, old(classes[..]))
      {
        if off + t.fields[j].offset >= 0 {
          ClassifyRange(t.fields[j].ty, off + t.fields[j].offset, classes);
        }
      }
      FixUp(classes);
  }

  method FillMemory(classes: array<Class>)
    modifies classes
    ensures classes[..] == AllMemory(classes.Length)
  {
    for i := 0 to classes.Length
      invariant forall k :: 0 <= k < i ==> classes[k] == Memory
    {
      classes[i] := Memory;
    }
  }

  method AnyMisaligned(fs: seq<Field>) returns (bad: bool)
    ensures bad <==> Misaligned(fs)
  {
    for j := 0 to |fs|
      invariant !Misaligned(fs[..j])
    {
      if Alignof(fs[j].ty) > 0 && fs[j].offset % Alignof(fs[j].ty) != 0 { return true; }
    }
    assert fs[..|fs|] == fs;
    return false;
  }

  method FixUp(classes: array<Class>)
    modifies classes
    ensures classes[..] == FixFrom(old(classes[..]), 0)
  {
    for i := 0 to classes.Length
      invariant classes[..] == old(classes[..])
      invariant FixFrom(old(classes[..]), 0) == FixFrom(old(classes[..]), i)
    {
      if classes[i] == Memory || (classes[i] == X87Up && (i == 0 || classes[i - 1] != X87)) {
        FillMemory(classes);
        return;
      }
    }
  }

  datatype Classification = Classification(classes: seq<Class>)

  function AbiClassify(t: Type): Classification {
    var total := Sizeof(t);
    if total <= 0 then Classification([])
    else
      var n := (total + 7) / 8;
      if n > MAX_EIGHTBYTES then Classification([Memory])
      else Classification(ClassifyInto(t, 0, seq(n, e => NoClass)))
  }

  method RunAbiClassify(t: Type) returns (r: Classification)
    ensures r == AbiClassify(t)
  {
    var total := Sizeof(t);
    if total <= 0 { return Classification([]); }
    var n := (total + 7) / 8;
    if n > MAX_EIGHTBYTES { return Classification([Memory]); }
    var classes := new Class[n](e => NoClass);
    assert classes[..] == seq(n, e => NoClass);
    ClassifyRange(t, 0, classes);
    r := Classification(classes[..]);
  }

  predicate InMemory(c: Classification) {
    exists e :: 0 <= e < |c.classes| && c.classes[e] == Memory
  }

  // ----- the flat specification -----

  predicate NoLongDouble(t: Type) {
    match t
    case Scalar(k) => k != LDoubleK
    case Array(e, _) => NoLongDouble(e)
    case Struct(fs, _, _) => forall i :: 0 <= i < |fs| ==> NoLongDouble(fs[i].ty)
    case Union(fs, _, _) => forall i :: 0 <= i < |fs| ==> NoLongDouble(fs[i].ty)
    case _ => true
  }

  /** The parser gives every field offset 0, and sealing leaves a zero-width bit-field there. */
  predicate BreaksAtZero(t: Type) {
    match t
    case Array(e, _) => BreaksAtZero(e)
    case Struct(fs, _, _) => forall i :: 0 <= i < |fs| ==> (fs[i].width == 0 ==> fs[i].offset == 0) && BreaksAtZero(fs[i].ty)
    case Union(fs, _, _) => forall i :: 0 <= i < |fs| ==> (fs[i].width == 0 ==> fs[i].offset == 0) && BreaksAtZero(fs[i].ty)
    case _ => true
  }

  /** Every type a declaration can build, but for `long double` in it. */
  predicate Broad(t: Type) {
    Complete(t) && NoLongDouble(t) && BreaksAtZero(t)
  }

  /** The types the flat specification is about. */
  predicate Flat(t: Type) {
    Complete(t) && NoZeroWidth(t) && NoLongDouble(t)
  }

  lemma {:induction false} NothingBreaks(t: Type)
    requires NoZeroWidth(t)
    ensures BreaksAtZero(t)
    ensures forall o :: !BreakAt(t, o)
    decreases t
  {
    if t.Array? {
      NothingBreaks(t.elem);
    } else if t.Struct? || t.Union? {
      forall i | 0 <= i < |t.fields|
        ensures BreaksAtZero(t.fields[i].ty) && forall o :: !BreakAt(t.fields[i].ty, o)
      {
        NothingBreaks(t.fields[i].ty);
      }
    }
  }

  /** A zero-width bit-field stands at offset `o`. */
  ghost predicate BreakAt(t: Type, o: int)
    decreases t
  {
    match t
    case Array(e, n) => exists i: int :: 0 <= i < n && BreakAt(e, Within(o, i, Sizeof(e)))
    case Struct(fs, _, _) =>
      exists j :: 0 <= j < |fs| && if fs[j].width == 0 then o == fs[j].offset else BreakAt(fs[j].ty, o - fs[j].offset)
    case Union(fs, _, _) =>
      exists j :: 0 <= j < |fs| && if fs[j].width == 0 then o == fs[j].offset else BreakAt(fs[j].ty, o - fs[j].offset)
    case _ => false
  }

  /** What the classifier takes for a scalar of kind `k` at `o`: it looks at zero-width bit-fields too. */
  ghost predicate UnitAt(t: Type, o: int, k: Kind)
    decreases t
  {
    match t
    case Scalar(k1) => o == 0 && k == k1
    case Array(e, n) => exists i: int :: 0 <= i < n && UnitAt(e, Within(o, i, Sizeof(e)), k)
    case Struct(fs, _, _) => exists j :: 0 <= j < |fs| && UnitAt(fs[j].ty, o - fs[j].offset, k)
    case Union(fs, _, _) => exists j :: 0 <= j < |fs| && UnitAt(fs[j].ty, o - fs[j].offset, k)
    case _ => false
  }

  lemma {:induction false} UnitInside(t: Type, o: int, k: Kind)
    requires Broad(t) && UnitAt(t, o, k)
    ensures o >= 0
    decreases t
  {
    hide Broad, Sizeof;
    if t.Array? {
      var i := ElementOf(t, o, k);
      ElementBroad(t);
      UnitInside(t.elem, Within(o, i, Sizeof(t.elem)), k);
      assert Sizeof(t.elem) >= 0 by { BroadSize(t.elem); }
      MulMonotone(Sizeof(t.elem), 0, i);
    } else if t.Struct? || t.Union? {
      var j := FieldOf(t, o, k);
      FieldBroad(t, j);
      UnitInside(t.fields[j].ty, o - t.fields[j].offset, k);
      PartFits(t, j);
    }
  }

  lemma BroadSize(t: Type)
    requires Broad(t)
    ensures Sizeof(t) >= 0
  {
    SizeNonNegative(t);
  }

  lemma FieldOf(t: Type, o: int, k: Kind) returns (j: nat)
    requires (t.Struct? || t.Union?) && UnitAt(t, o, k)
    ensures j < |t.fields| && UnitAt(t.fields[j].ty, o - t.fields[j].offset, k)
  {
    j :| 0 <= j < |t.fields| && UnitAt(t.fields[j].ty, o - t.fields[j].offset, k);
  }

  lemma FieldHolds(t: Type, j: nat, o: int, k: Kind)
    requires (t.Struct? || t.Union?) && j < |t.fields| && UnitAt(t.fields[j].ty, o - t.fields[j].offset, k)
    ensures UnitAt(t, o, k)
  {
  }

  lemma PartComplete(t: Type)
    requires Complete(t)
    ensures t.Array? ==> Complete(t.elem)
    ensures t.Struct? || t.Union? ==> forall j :: 0 <= j < |t.fields| ==> Complete(t.fields[j].ty) && WidthOk(t.fields[j])
  {
    hide StructFits, SealStruct, SealUnion, Sizeof;
  }

  /** A unit is a scalar or a zero-width bit-field, the latter of INTEGER type. */
  ghost predicate Explained(t: Type, o: int, k: Kind) {
    LeafAt(t, o, k) || (BreakAt(t, o) && KindClass(k) == Integer)
  }

  lemma ElementIs(t: Type, i: int, o: int, k: Kind)
    requires t.Array? && 0 <= i < t.count
    ensures LeafAt(t.elem, Within(o, i, Sizeof(t.elem)), k) ==> LeafAt(t, o, k)
    ensures BreakAt(t.elem, Within(o, i, Sizeof(t.elem))) ==> BreakAt(t, o)
  {
  }

  lemma ElementExplained(t: Type, i: int, o: int, k: Kind)
    requires t.Array? && 0 <= i < t.count && Explained(t.elem, Within(o, i, Sizeof(t.elem)), k)
    ensures Explained(t, o, k)
  {
    hide LeafAt, BreakAt;
    ElementIs(t, i, o, k);
  }

  lemma FieldExplained(t: Type, j: nat, o: int, k: Kind)
    requires (t.Struct? || t.Union?) && j < |t.fields| && t.fields[j].width != 0
    requires Explained(t.fields[j].ty, o - t.fields[j].offset, k)
    ensures Explained(t, o, k)
  {
    hide Sizeof;
    if LeafAt(t.fields[j].ty, o - t.fields[j].offset, k) {
      assert LeafAt(t, o, k);
    } else {
      assert BreakAt(t.fields[j].ty, o - t.fields[j].offset);
      assert BreakAt(t, o);
    }
  }

  lemma BreakExplained(t: Type, j: nat, o: int, k: Kind)
    requires (t.Struct? || t.Union?) && j < |t.fields| && t.fields[j].width == 0 && WidthOk(t.fields[j])
    requires UnitAt(t.fields[j].ty, o - t.fields[j].offset, k)
    ensures Explained(t, o, k)
  {
  }

  lemma {:induction false} UnitExplained(t: Type, o: int, k: Kind)
    requires Complete(t) && UnitAt(t, o, k)
    ensures Explained(t, o, k)
    decreases t
  {
    hide Complete, Sizeof, Explained;
    PartComplete(t);
    if t.Array? {
      var i := ElementOf(t, o, k);
      UnitExplained(t.elem, Within(o, i, Sizeof(t.elem)), k);
      ElementExplained(t, i, o, k);
    } else if t.Struct? || t.Union? {
      var j := FieldOf(t, o, k);
      if t.fields[j].width == 0 {
        BreakExplained(t, j, o, k);
      } else {
        UnitExplained(t.fields[j].ty, o - t.fields[j].offset, k);
        FieldExplained(t, j, o, k);
      }
    } else {
      assert Explained(t, o, k) by { ScalarExplained(t, o, k); }
    }
  }

  lemma ScalarExplained(t: Type, o: int, k: Kind)
    requires t.Scalar? && UnitAt(t, o, k)
    ensures Explained(t, o, k)
  {
  }

  lemma {:induction false} LeafIsUnit(t: Type, o: int, k: Kind)
    requires LeafAt(t, o, k)
    ensures UnitAt(t, o, k)
    decreases t
  {
    hide Sizeof;
    if t.Array? {
      var i: int :| 0 <= i < t.count && LeafAt(t.elem, Within(o, i, Sizeof(t.elem)), k);
      LeafIsUnit(t.elem, Within(o, i, Sizeof(t.elem)), k);
      ElementHolds(t, i, o, k);
    } else if t.Struct? || t.Union? {
      var fs := t.fields;
      var j :| 0 <= j < |fs| && fs[j].width != 0 && LeafAt(fs[j].ty, o - fs[j].offset, k);
      LeafIsUnit(fs[j].ty, o - fs[j].offset, k);
      FieldHolds(t, j, o, k);
    }
  }

  lemma {:induction false} BreakIsUnit(t: Type, o: int) returns (k: Kind)
    requires Complete(t) && BreakAt(t, o)
    ensures UnitAt(t, o, k) && KindClass(k) == Integer
    decreases t
  {
    hide Complete, Sizeof;
    PartComplete(t);
    if t.Array? {
      var i: int :| 0 <= i < t.count && BreakAt(t.elem, Within(o, i, Sizeof(t.elem)));
      k := BreakIsUnit(t.elem, Within(o, i, Sizeof(t.elem)));
      ElementHolds(t, i, o, k);
    } else {
      var fs := t.fields;
      var j :| 0 <= j < |fs| && if fs[j].width == 0 then o == fs[j].offset else BreakAt(fs[j].ty, o - fs[j].offset);
      if fs[j].width == 0 {
        k := fs[j].ty.kind;
      } else {
        k := BreakIsUnit(fs[j].ty, o - fs[j].offset);
      }
      FieldHolds(t, j, o, k);
    }
  }

  /** Some scalar of `t`, placed at `base`, starts in eightbyte `e` and has class `c`. */
  ghost predicate HasLeaf(t: Type, base: int, e: int, c: Class) {
    exists o: int, k: Kind :: LeafAt(t, o, k) && KindClass(k) == c && (base + o) / 8 == e
  }

  /** Section 3.2.3 of the System V ABI: the scalars of class INTEGER. */
  const INTEGER_KINDS := {BoolK, CharK, SCharK, UCharK, ShortK, UShortK, IntK, UIntK, LongK, ULongK, LLongK, ULLongK,
                          PointerK, EnumK}

  /** And those of class SSE. */
  const SSE_KINDS := {FloatK, DoubleK}

  /** Some scalar of `t` of one of these kinds starts in eightbyte `e`. */
  ghost predicate HasKind(t: Type, e: int, kinds: set<Kind>) {
    exists o: int, k: Kind :: LeafAt(t, o, k) && k in kinds && o / 8 == e
  }

  lemma ClassOf(k: Kind)
    ensures KindClass(k) == Integer <==> k in INTEGER_KINDS
    ensures KindClass(k) == Sse <==> k in SSE_KINDS
  {
  }

  lemma LeavesAre(t: Type, e: int)
    ensures HasLeaf(t, 0, e, Integer) <==> HasKind(t, e, INTEGER_KINDS)
    ensures HasLeaf(t, 0, e, Sse) <==> HasKind(t, e, SSE_KINDS)
  {
    hide LeafAt;
    LeavesOf(t, e, Integer, INTEGER_KINDS);
    LeavesOf(t, e, Sse, SSE_KINDS);
  }

  lemma LeavesOf(t: Type, e: int, c: Class, kinds: set<Kind>)
    requires (c == Integer && kinds == INTEGER_KINDS) || (c == Sse && kinds == SSE_KINDS)
    ensures HasLeaf(t, 0, e, c) <==> HasKind(t, e, kinds)
  {
    hide LeafAt, KindClass;
    if HasLeaf(t, 0, e, c) {
      var o: int, k: Kind :| LeafAt(t, o, k) && KindClass(k) == c && (0 + o) / 8 == e;
      ClassOf(k);
      assert o / 8 == e;
    }
    if HasKind(t, e, kinds) {
      var o: int, k: Kind :| LeafAt(t, o, k) && k in kinds && o / 8 == e;
      ClassOf(k);
      assert (0 + o) / 8 == e;
    }
  }

  lemma {:induction false} NotLongDouble(t: Type, o: int, k: Kind)
    requires NoLongDouble(t) && LeafAt(t, o, k)
    ensures k != LDoubleK
    decreases t
  {
    if t.Array? {
      var i: int :| 0 <= i < t.count && LeafAt(t.elem, Within(o, i, Sizeof(t.elem)), k);
      NotLongDouble(t.elem, Within(o, i, Sizeof(t.elem)), k);
    } else if t.Struct? || t.Union? {
      var fs := t.fields;
      var j :| 0 <= j < |fs| && fs[j].width != 0 && LeafAt(fs[j].ty, o - fs[j].offset, k);
      NotLongDouble(fs[j].ty, o - fs[j].offset, k);
    }
  }

  /** Some zero-width bit-field of `t` is classified in eightbyte `e`. */
  ghost predicate HasBreak(t: Type, e: int) {
    exists o: int :: BreakAt(t, o) && o / 8 == e
  }

  lemma UnitsAre(t: Type, e: int, c: Class)
    requires Complete(t)
    ensures HasUnit(t, 0, e, c) <==> HasLeaf(t, 0, e, c) || (c == Integer && HasBreak(t, e))
  {
    if HasUnit(t, 0, e, c) {
      var o: int, k: Kind :| UnitAt(t, o, k) && KindClass(k) == c && (0 + o) / 8 == e;
      UnitExplained(t, o, k);
      assert BreakAt(t, o) ==> o / 8 == e;
    }
    if HasLeaf(t, 0, e, c) {
      var o: int, k: Kind :| LeafAt(t, o, k) && KindClass(k) == c && (0 + o) / 8 == e;
      LeafIsUnit(t, o, k);
    }
    if c == Integer && HasBreak(t, e) {
      var o: int :| BreakAt(t, o) && o / 8 == e;
      var k := BreakIsUnit(t, o);
      assert (0 + o) / 8 == e;
    }
  }

  /** Something of class `c` in `t`, placed at `base`, is classified in eightbyte `e`. */
  ghost predicate HasUnit(t: Type, base: int, e: int, c: Class) {
    exists o: int, k: Kind :: UnitAt(t, o, k) && KindClass(k) == c && (base + o) / 8 == e
  }

  /** Of the first `m` elements of an array. */
  ghost predicate ElementLeaf(t: Type, base: int, m: int, e: int, c: Class)
    requires t.Array?
  {
    exists i: int :: 0 <= i < m && HasUnit(t.elem, ElementAt(base, i, Sizeof(t.elem)), e, c)
  }

  /** Of the first `m` fields of an aggregate. */
  ghost predicate FieldLeaf(t: Type, base: int, m: nat, e: int, c: Class)
    requires (t.Struct? || t.Union?) && m <= |t.fields|
  {
    exists j :: 0 <= j < m && HasUnit(t.fields[j].ty, base + t.fields[j].offset, e, c)
  }

  /** The join of a class with scalars of which some are INTEGER and some SSE, in any order. */
  function Join(c: Class, int_: bool, sse: bool): Class {
    if int_ || c == Integer then Integer
    else if sse || c == Sse then Sse
    else NoClass
  }

  predicate Plain(cs: seq<Class>) {
    forall e :: 0 <= e < |cs| ==> cs[e] == NoClass || cs[e] == Integer || cs[e] == Sse
  }

  ghost predicate Joined(t: Type, base: int, cs: seq<Class>, r: seq<Class>) {
    |r| == |cs| && Plain(r)
    && forall e :: 0 <= e < |cs| ==> r[e] == Join(cs[e], HasUnit(t, base, e, Integer), HasUnit(t, base, e, Sse))
  }

  /** A leaf of a part that starts `d` bytes into the whole, seen from either. */
  lemma LeafMoves(t: Type, base: int, d: int, o: int, k: Kind, e: int)
    requires UnitAt(t, o - d, k) && (base + o) / 8 == e
    ensures HasUnit(t, base + d, e, KindClass(k))
  {
    assert base + d + (o - d) == base + o;
  }

  lemma LeafOf(t: Type, base: int, d: int, e: int, c: Class) returns (o: int, k: Kind)
    requires HasUnit(t, base + d, e, c)
    ensures UnitAt(t, o - d, k) && KindClass(k) == c && (base + o) / 8 == e
  {
    var o1: int, k1: Kind :| UnitAt(t, o1, k1) && KindClass(k1) == c && (base + d + o1) / 8 == e;
    o, k := o1 + d, k1;
  }

  lemma LeafFound(t: Type, base: int, o: int, k: Kind, e: int)
    requires UnitAt(t, o, k) && (base + o) / 8 == e
    ensures HasUnit(t, base, e, KindClass(k))
  {
  }

  lemma ElementHolds(t: Type, i: int, o: int, k: Kind)
    requires t.Array? && 0 <= i < t.count && UnitAt(t.elem, Within(o, i, Sizeof(t.elem)), k)
    ensures UnitAt(t, o, k)
  {
  }

  lemma ElementOf(t: Type, o: int, k: Kind) returns (i: int)
    requires t.Array? && UnitAt(t, o, k)
    ensures 0 <= i < t.count && UnitAt(t.elem, Within(o, i, Sizeof(t.elem)), k)
  {
    i :| 0 <= i < t.count && UnitAt(t.elem, Within(o, i, Sizeof(t.elem)), k);
  }

  lemma ElementsAreLeaves(t: Type, base: int, e: int, c: Class)
    requires t.Array?
    ensures HasUnit(t, base, e, c) <==> ElementLeaf(t, base, t.count, e, c)
  {
    hide UnitAt, HasUnit;
    var el := t.elem;
    if HasUnit(t, base, e, c) {
      var o, k := LeafOf(t, base, 0, e, c);
      var i := ElementOf(t, o, k);
      var d := i * Sizeof(el);
      LeafMoves(el, base, d, o, k, e);
      assert HasUnit(el, ElementAt(base, i, Sizeof(el)), e, c);
    }
    if ElementLeaf(t, base, t.count, e, c) {
      var i: int :| 0 <= i < t.count && HasUnit(el, ElementAt(base, i, Sizeof(el)), e, c);
      var o, k := LeafOf(el, base, i * Sizeof(el), e, c);
      ElementHolds(t, i, o, k);
      LeafFound(t, base, o, k, e);
    }
  }

  lemma FieldsAreLeaves(t: Type, base: int, e: int, c: Class)
    requires t.Struct? || t.Union?
    ensures HasUnit(t, base, e, c) <==> FieldLeaf(t, base, |t.fields|, e, c)
  {
    hide HasUnit;
    var fs := t.fields;
    if HasUnit(t, base, e, c) {
      var o, k := LeafOf(t, base, 0, e, c);
      var j :| 0 <= j < |fs| && UnitAt(fs[j].ty, o - fs[j].offset, k);
      LeafMoves(fs[j].ty, base, fs[j].offset, o, k, e);
    }
    if FieldLeaf(t, base, |fs|, e, c) {
      var j :| 0 <= j < |fs| && HasUnit(fs[j].ty, base + fs[j].offset, e, c);
      var o, k := LeafOf(fs[j].ty, base, fs[j].offset, e, c);
      assert UnitAt(t, o, k);
      LeafFound(t, base, o, k, e);
    }
  }

  lemma Nowhere(t: Type, base: int, n: nat, e: int, c: Class)
    requires Broad(t) && base >= 8 * n && e < n
    ensures !HasUnit(t, base, e, c)
  {
    if HasUnit(t, base, e, c) {
      var o: int, k: Kind :| UnitAt(t, o, k) && KindClass(k) == c && (base + o) / 8 == e;
      UnitInside(t, o, k);
    }
  }

  lemma ScalarJoined(k: Kind, base: nat, cs: seq<Class>)
    requires k != LDoubleK && Plain(cs) && base / 8 < |cs|
    ensures Joined(Scalar(k), base, cs, MergeAt(cs, base / 8, KindClass(k)))
  {
    var t := Scalar(k);
    forall e: int, c: Class
      ensures HasUnit(t, base, e, c) <==> e == base / 8 && c == KindClass(k)
    {
      if e == base / 8 && c == KindClass(k) {
        assert UnitAt(t, 0, k) && (base + 0) / 8 == e;
      }
    }
  }

  /** Joining twice is joining with both. */
  lemma JoinTwice(c: Class, i1: bool, s1: bool, i2: bool, s2: bool)
    ensures Join(Join(c, i1, s1), i2, s2) == Join(c, i1 || i2, s1 || s2)
  {
  }

  /** Nothing in plain classes calls for the post-merger rules. */
  lemma {:induction false} FixPlain(cs: seq<Class>, i: nat)
    requires i <= |cs| && Plain(cs)
    ensures FixFrom(cs, i) == cs
    decreases |cs| - i
  {
    if i < |cs| {
      FixPlain(cs, i + 1);
    }
  }

  ghost predicate ElementsDone(t: Type, base: int, m: int, cs: seq<Class>, r: seq<Class>)
    requires t.Array?
  {
    |r| == |cs| && Plain(r)
    && forall e :: 0 <= e < |cs| ==>
         r[e] == Join(cs[e], ElementLeaf(t, base, m, e, Integer), ElementLeaf(t, base, m, e, Sse))
  }

  lemma ElementDone(t: Type, base: int, m: int, cs: seq<Class>, prev: seq<Class>, r: seq<Class>)
    requires t.Array? && m > 0 && ElementsDone(t, base, m - 1, cs, prev)
    requires Joined(t.elem, ElementAt(base, m - 1, Sizeof(t.elem)), prev, r)
    ensures ElementsDone(t, base, m, cs, r)
  {
    hide HasUnit, ElementLeaf, Sizeof, Join, ElementAt;
    var at := ElementAt(base, m - 1, Sizeof(t.elem));
    forall e | 0 <= e < |cs|
      ensures r[e] == Join(cs[e], ElementLeaf(t, base, m, e, Integer), ElementLeaf(t, base, m, e, Sse))
    {
      ElementMore(t, base, m, e, Integer);
      ElementMore(t, base, m, e, Sse);
      JoinTwice(cs[e], ElementLeaf(t, base, m - 1, e, Integer), ElementLeaf(t, base, m - 1, e, Sse),
                HasUnit(t.elem, at, e, Integer), HasUnit(t.elem, at, e, Sse));
    }
  }

  lemma {:induction false} ElementsJoined(t: Type, base: nat, m: nat, cs: seq<Class>)
    requires Broad(t) && t.Array? && m <= t.count && Plain(cs) && |cs| <= MAX_EIGHTBYTES
    requires Sizeof(t) <= 16
    ensures Sizeof(t.elem) >= 0 && ElementsDone(t, base, m, cs, Elements(t, base, m, cs))
    decreases t, 0, m
  {
    SizeNonNegative(t.elem);
    ElementBroad(t);
    hide Broad, Elements, Joined, HasUnit, ElementLeaf, Join, ElementAt;
    if m == 0 {
      NoElements(t, base, cs);
    } else {
      var el, prev := t.elem, Elements(t, base, m - 1, cs);
      ElementFits(base, Sizeof(el), m, t.count);
      var at := ElementAt(base, m - 1, Sizeof(el));
      ElementsJoined(t, base, m - 1, cs);
      assert Plain(prev);
      IntoJoined(el, at, prev);
      ElementsStep(t, base, m, cs);
      ElementDone(t, base, m, cs, prev, ClassifyInto(el, at, prev));
    }
  }

  lemma ElementsStep(t: Type, base: nat, m: nat, cs: seq<Class>)
    requires t.Array? && Sizeof(t.elem) >= 0 && m > 0
    ensures Elements(t, base, m, cs)
         == ClassifyInto(t.elem, ElementAt(base, m - 1, Sizeof(t.elem)), Elements(t, base, m - 1, cs))
  {
  }

  lemma ElementMore(t: Type, base: int, m: int, e: int, c: Class)
    requires t.Array? && m > 0
    ensures ElementLeaf(t, base, m, e, c)
            <==> ElementLeaf(t, base, m - 1, e, c) || HasUnit(t.elem, ElementAt(base, m - 1, Sizeof(t.elem)), e, c)
  {
    hide HasUnit;
  }

  ghost predicate FieldsDone(t: Type, base: int, m: nat, cs: seq<Class>, r: seq<Class>)
    requires (t.Struct? || t.Union?) && m <= |t.fields|
  {
    |r| == |cs| && Plain(r)
    && forall e :: 0 <= e < |cs| ==>
         r[e] == Join(cs[e], FieldLeaf(t, base, m, e, Integer), FieldLeaf(t, base, m, e, Sse))
  }

  lemma FieldDone(t: Type, base: int, m: nat, cs: seq<Class>, prev: seq<Class>, r: seq<Class>)
    requires (t.Struct? || t.Union?) && 0 < m <= |t.fields| && FieldsDone(t, base, m - 1, cs, prev)
    requires Joined(t.fields[m - 1].ty, base + t.fields[m - 1].offset, prev, r)
    ensures FieldsDone(t, base, m, cs, r)
  {
    hide HasUnit, FieldLeaf, Sizeof, Join;
    var f := t.fields[m - 1];
    var at := base + f.offset;
    forall e | 0 <= e < |cs|
      ensures r[e] == Join(cs[e], FieldLeaf(t, base, m, e, Integer), FieldLeaf(t, base, m, e, Sse))
    {
      FieldMore(t, base, m, e, Integer);
      FieldMore(t, base, m, e, Sse);
      JoinTwice(cs[e], FieldLeaf(t, base, m - 1, e, Integer), FieldLeaf(t, base, m - 1, e, Sse),
                HasUnit(f.ty, at, e, Integer), HasUnit(f.ty, at, e, Sse));
    }
  }

  lemma {:induction false} FieldsJoined(t: Type, base: nat, m: nat, cs: seq<Class>)
    requires Broad(t) && (t.Struct? || t.Union?) && m <= |t.fields| && Plain(cs) && |cs| <= MAX_EIGHTBYTES
    requires Sizeof(t) <= 16
    ensures FieldsDone(t, base, m, cs, FieldsInto(t, base, m, cs))
    decreases t, 0, m
  {
    hide Broad, FieldsInto, Joined, HasUnit, FieldLeaf, Join;
    if m == 0 {
      NoFields(t, base, cs);
    } else {
      var f, prev := t.fields[m - 1], FieldsInto(t, base, m - 1, cs);
      var at := base + f.offset;
      FieldsJoined(t, base, m - 1, cs);
      assert Plain(prev);
      PartFits(t, m - 1);
      FieldBroad(t, m - 1);
      IntoJoined(f.ty, at, prev);
      FieldsStep(t, base, m, cs);
      FieldDone(t, base, m, cs, prev, ClassifyInto(f.ty, at, prev));
    }
  }

  lemma NoFields(t: Type, base: nat, cs: seq<Class>)
    requires (t.Struct? || t.Union?) && Plain(cs)
    ensures FieldsDone(t, base, 0, cs, FieldsInto(t, base, 0, cs))
  {
  }

  lemma NoElements(t: Type, base: nat, cs: seq<Class>)
    requires t.Array? && Sizeof(t.elem) >= 0 && Plain(cs)
    ensures ElementsDone(t, base, 0, cs, Elements(t, base, 0, cs))
  {
  }

  lemma ElementFits(base: int, size: int, m: int, n: int)
    requires size >= 0 && 1 <= m <= n
    ensures base <= ElementAt(base, m - 1, size) && size <= size * n
  {
    MulMonotone(size, 1, n);
    MulMonotone(size, 0, m - 1);
  }

  lemma PartFits(t: Type, j: nat)
    requires Broad(t) && (t.Struct? || t.Union?) && j < |t.fields|
    ensures 0 <= t.fields[j].offset && (t.fields[j].ty.Scalar? || Sizeof(t.fields[j].ty) <= Sizeof(t))
    ensures Alignof(t.fields[j].ty) > 0 && t.fields[j].offset % Alignof(t.fields[j].ty) == 0
  {
    FieldBroad(t, j);
    SizeNonNegative(t.fields[j].ty);
    assert Complete(t) && WidthOk(t.fields[j]);
    if t.fields[j].width != 0 {
      FieldInside(t, j);
    }
  }

  lemma ElementBroad(t: Type)
    requires Broad(t) && t.Array?
    ensures Broad(t.elem)
  {
  }

  lemma FieldBroad(t: Type, j: nat)
    requires Broad(t) && (t.Struct? || t.Union?) && j < |t.fields|
    ensures Broad(t.fields[j].ty) && (t.fields[j].width == 0 ==> t.fields[j].offset == 0)
  {
  }

  lemma FieldsStep(t: Type, base: nat, m: nat, cs: seq<Class>)
    requires (t.Struct? || t.Union?) && 0 < m <= |t.fields| && t.fields[m - 1].offset >= 0
    ensures FieldsInto(t, base, m, cs)
         == ClassifyInto(t.fields[m - 1].ty, base + t.fields[m - 1].offset, FieldsInto(t, base, m - 1, cs))
  {
  }

  lemma FieldMore(t: Type, base: int, m: nat, e: int, c: Class)
    requires (t.Struct? || t.Union?) && 0 < m <= |t.fields|
    ensures FieldLeaf(t, base, m, e, c)
            <==> FieldLeaf(t, base, m - 1, e, c) || HasUnit(t.fields[m - 1].ty, base + t.fields[m - 1].offset, e, c)
  {
    hide HasUnit;
  }

  lemma WellAligned(t: Type)
    requires Broad(t) && (t.Struct? || t.Union?)
    ensures !Misaligned(t.fields)
  {
    forall j | 0 <= j < |t.fields|
      ensures Alignof(t.fields[j].ty) > 0 && t.fields[j].offset % Alignof(t.fields[j].ty) == 0
    {
      PartFits(t, j);
    }
  }

  /** Classifying adds to each eightbyte the join of the units that start in it. */
  lemma {:induction false} IntoJoined(t: Type, base: nat, cs: seq<Class>)
    requires Broad(t) && Plain(cs) && |cs| <= MAX_EIGHTBYTES && (t.Scalar? || Sizeof(t) <= 16)
    ensures Joined(t, base, cs, ClassifyInto(t, base, cs))
    decreases t
  {
    hide HasUnit, Elements, FieldsInto, FixFrom, Misaligned;
    SizeNonNegative(t);
    if base / 8 >= |cs| {
      forall e, c: Class | 0 <= e < |cs|
        ensures !HasUnit(t, base, e, c)
      {
        Nowhere(t, base, |cs|, e, c);
      }
    } else if t.Scalar? {
      ScalarJoined(t.kind, base, cs);
    } else if t.Array? {
      ElementsJoined(t, base, t.count, cs);
      forall e, c: Class | 0 <= e < |cs|
        ensures HasUnit(t, base, e, c) <==> ElementLeaf(t, base, t.count, e, c)
      {
        ElementsAreLeaves(t, base, e, c);
      }
    } else {
      FieldsJoined(t, base, |t.fields|, cs);
      WellAligned(t);
      FixPlain(FieldsInto(t, base, |t.fields|, cs), 0);
      forall e, c: Class | 0 <= e < |cs|
        ensures HasUnit(t, base, e, c) <==> FieldLeaf(t, base, |t.fields|, e, c)
      {
        FieldsAreLeaves(t, base, e, c);
      }
    }
  }

  lemma ClassifyJoins(t: Type)
    requires Broad(t) && Sizeof(t) > 0
    ensures InMemory(AbiClassify(t)) <==> Sizeof(t) > 16
    ensures Sizeof(t) <= 16 ==>
              && |AbiClassify(t).classes| == (Sizeof(t) + 7) / 8
              && forall e :: 0 <= e < |AbiClassify(t).classes| ==>
                   AbiClassify(t).classes[e] ==
                   Join(NoClass, HasLeaf(t, 0, e, Integer) || HasBreak(t, e), HasLeaf(t, 0, e, Sse))
  {
    hide ClassifyInto, Sizeof, HasLeaf, HasUnit, HasBreak;
    if Sizeof(t) > 16 {
      assert AbiClassify(t).classes[0] == Memory;
    } else {
      var n := (Sizeof(t) + 7) / 8;
      IntoJoined(t, 0, seq(n, e => NoClass));
      forall e, c: Class | 0 <= e < n
        ensures HasUnit(t, 0, e, c) <==> HasLeaf(t, 0, e, c) || (c == Integer && HasBreak(t, e))
      {
        UnitsAre(t, e, c);
      }
    }
  }

  /**
   What the classifier computes for every type but `long double`: memory above 16 bytes, and else
   for each eightbyte INTEGER if a scalar of an INTEGER kind or a zero-width bit-field is in it, else
   SSE if a `float` or a `double` is.
   */
  lemma ClassifyAll(t: Type)
    requires Broad(t) && Sizeof(t) > 0
    ensures InMemory(AbiClassify(t)) <==> Sizeof(t) > 16
    ensures Sizeof(t) <= 16 ==>
              && |AbiClassify(t).classes| == (Sizeof(t) + 7) / 8
              && forall e :: 0 <= e < |AbiClassify(t).classes| ==>
                   AbiClassify(t).classes[e] ==
                   if HasKind(t, e, INTEGER_KINDS) || HasBreak(t, e) then Integer
                   else if HasKind(t, e, SSE_KINDS) then Sse
                   else NoClass
  {
    hide AbiClassify, HasLeaf, HasKind, HasBreak, Sizeof;
    ClassifyJoins(t);
    forall e | 0 <= e < |AbiClassify(t).classes|
      ensures HasLeaf(t, 0, e, Integer) <==> HasKind(t, e, INTEGER_KINDS)
      ensures HasLeaf(t, 0, e, Sse) <==> HasKind(t, e, SSE_KINDS)
    {
      LeavesAre(t, e);
    }
  }

  /** The class that the scalars of an eightbyte call for. */
  ghost function CalledFor(t: Type, e: int): Class {
    if HasKind(t, e, INTEGER_KINDS) then Integer else if HasKind(t, e, SSE_KINDS) then Sse else NoClass
  }

  /**
   An eightbyte has another class than its scalars call for exactly when a zero-width bit-field is
   classified in it and no INTEGER scalar starts in it.
   */
  lemma MisclassifiedExact(t: Type, e: nat)
    requires Broad(t) && 0 < Sizeof(t) <= 16 && 8 * e < Sizeof(t)
    ensures e < |AbiClassify(t).classes|
    ensures AbiClassify(t).classes[e] != CalledFor(t, e) <==> HasBreak(t, e) && !HasKind(t, e, INTEGER_KINDS)
  {
    hide AbiClassify, HasKind, HasBreak, Sizeof;
    ClassifyAll(t);
  }

  /**
   Classification equals its flat specification. An object of at most 16 bytes has one class per
   eightbyte: INTEGER if a scalar of an INTEGER kind starts in it, else SSE, and then a `float` or a
   `double` does. A larger one, and only that, goes to memory.
   */
  lemma ClassifyExact(t: Type)
    requires Flat(t) && Sizeof(t) > 0
    ensures InMemory(AbiClassify(t)) <==> Sizeof(t) > 16
    ensures Sizeof(t) <= 16 ==>
              && |AbiClassify(t).classes| == (Sizeof(t) + 7) / 8
              && forall e :: 0 <= e < |AbiClassify(t).classes| ==>
                   && (HasKind(t, e, INTEGER_KINDS) || HasKind(t, e, SSE_KINDS))
                   && AbiClassify(t).classes[e] == if HasKind(t, e, INTEGER_KINDS) then Integer else Sse
  {
    hide AbiClassify, HasKind, Sizeof;
    NothingBreaks(t);
    ClassifyAll(t);
    forall e | 0 <= e < |AbiClassify(t).classes| && Sizeof(t) <= 16
      ensures HasKind(t, e, INTEGER_KINDS) || HasKind(t, e, SSE_KINDS)
    {
      EightbyteFilled(t, e);
    }
  }

  /** Every eightbyte of a small object starts with a scalar. */
  lemma EightbyteFilled(t: Type, e: nat)
    requires Flat(t) && 8 * e < Sizeof(t)
    ensures HasKind(t, e, INTEGER_KINDS) || HasKind(t, e, SSE_KINDS)
  {
    SizeNonNegative(t);
    SmallAlign(t);
    assert MultipleOf(8 * e, Alignof(t)) by { EightMultiple(e, Alignof(t)); }
    var k := LeafAtMultiple(t, 8 * e);
    NotLongDouble(t, 8 * e, k);
    assert LeafAt(t, 8 * e, k) && (8 * e) / 8 == e;
    assert HasKind(t, e, if k in SSE_KINDS then SSE_KINDS else INTEGER_KINDS);
  }

  lemma EightMultiple(e: int, al: int)
    requires al == 1 || al == 2 || al == 4 || al == 8
    ensures (8 * e) % al == 0
  {
    var m := if al == 1 then 8 else if al == 2 then 4 else if al == 4 then 2 else 1;
    assert 8 * e == al * (m * e);
    DivModUnique(8 * e, al, m * e, 0);
  }

  lemma {:induction false} MaxAlignSmall(fs: seq<Field>, k: nat)
    requires k <= |fs| && forall i :: 0 <= i < |fs| ==> Alignof(fs[i].ty) <= 8
    ensures MaxAlign(fs, k) <= 8
    decreases k
  {
    if k > 0 {
      MaxAlignSmall(fs, k - 1);
    }
  }

  /** Only `long double` is aligned more strictly than an eightbyte. */
  lemma {:induction false} SmallAlign(t: Type)
    requires Flat(t)
    ensures Alignment(Alignof(t)) && Alignof(t) <= 8
    decreases t
  {
    hide SealStruct, SealUnion, StructFits;
    SizeNonNegative(t);
    if t.Array? {
      SmallAlign(t.elem);
    } else if t.Struct? || t.Union? {
      forall i | 0 <= i < |t.fields|
        ensures Alignof(t.fields[i].ty) <= 8
      {
        SmallAlign(t.fields[i].ty);
      }
      MaxAlignSmall(t.fields, |t.fields|);
      AggregateAlign(t);
    }
  }

  lemma AggregateAlign(t: Type)
    requires Complete(t) && (t.Struct? || t.Union?)
    ensures Alignof(t) == MaxAlign(t.fields, |t.fields|)
  {
    hide AlignUp, Sizeof, LeastMultiple, After;
    SizeIsAligned(t);
    StructAlign(t);
    if t.Struct? {
      LargestAlign(t.fields, |t.fields|);
    }
  }

  /** `struct { float a; int : 0; float b; }` as sealing leaves it. */
  function ZeroWidthExample(): Type {
    SealStruct([Field(Some("a"), Scalar(FloatK), -1, 0, 0), Field(None, Scalar(IntK), 0, 0, 0),
                Field(Some("b"), Scalar(FloatK), -1, 0, 0)])
  }

  lemma FourMore(x: nat)
    requires x == 0 || x == 4 || x == 8
    ensures AlignUp(x, 4) == x
  {
    MaskIsLeast(x, 4);
  }

  lemma FloatPlaced(c: Cursor, f: Field)
    requires f.ty == Scalar(FloatK) && f.width == -1 && (c.offset == 0 || c.offset == 4) && c.maxAlign <= 4
    ensures Place(c, f) == (c.(offset := c.offset + 4, maxAlign := 4, next := 0), f.(offset := c.offset))
  {
    hide AlignUp;
    FourMore(c.offset);
  }

  lemma BreakPlaced(c: Cursor, f: Field)
    requires f.ty == Scalar(IntK) && f.width == 0 && c.offset == 4 && c.next == 0 && c.maxAlign == 4
    ensures Place(c, f) == (c, f)
  {
    hide AlignUp;
    FourMore(4);
  }

  lemma ZeroWidthLayout()
    ensures ZeroWidthExample() ==
            Struct([Field(Some("a"), Scalar(FloatK), -1, 0, 0), Field(None, Scalar(IntK), 0, 0, 0),
                    Field(Some("b"), Scalar(FloatK), -1, 4, 0)], 8, 4)
  {
    hide AlignUp, Place;
    var f, z, g := Field(Some("a"), Scalar(FloatK), -1, 0, 0), Field(None, Scalar(IntK), 0, 0, 0),
                   Field(Some("b"), Scalar(FloatK), -1, 0, 0);
    var fs := [f, z, g];
    assert After(fs, 0) == Cursor(0, 1, 0, 0, 0, 1);
    FloatPlaced(After(fs, 0), f);
    assert After(fs, 1) == Cursor(4, 4, 0, 0, 0, 1);
    BreakPlaced(After(fs, 1), z);
    assert After(fs, 2) == Cursor(4, 4, 0, 0, 0, 1);
    FloatPlaced(After(fs, 2), g);
    assert After(fs, 3) == Cursor(8, 4, 0, 0, 0, 1);
    FourMore(8);
    assert PlacedField(fs, 0) == f && PlacedField(fs, 1) == z && PlacedField(fs, 2) == g.(offset := 4);
  }

  /**
   A zero-width bit-field keeps offset 0 and is classified there, so this struct of two floats is
   passed as INTEGER although no scalar in it is.
   */
  lemma ZeroWidthMisclassifies()
    ensures var t := ZeroWidthExample();
            AbiClassify(t).classes == [Integer] && !HasKind(t, 0, INTEGER_KINDS) && HasKind(t, 0, SSE_KINDS)
  {
    hide ZeroWidthExample, SealStruct, LeafAt, Misaligned;
    ZeroWidthLayout();
    var t := ZeroWidthExample();
    var none := seq(1, e => NoClass);
    assert none == [NoClass];
    assert !Misaligned(t.fields) by { AllAligned(t.fields); }
    assert FieldsInto(t, 0, 0, none) == [NoClass];
    assert FieldsInto(t, 0, 1, none) == [Sse];
    assert FieldsInto(t, 0, 2, none) == [Integer];
    assert FieldsInto(t, 0, 3, none) == [Integer];
    assert FixFrom([Integer], 1) == [Integer];
    OnlyFloats(t);
  }

  lemma OnlyFloats(t: Type)
    requires t == Struct([Field(Some("a"), Scalar(FloatK), -1, 0, 0), Field(None, Scalar(IntK), 0, 0, 0),
                          Field(Some("b"), Scalar(FloatK), -1, 4, 0)], 8, 4)
    ensures !HasKind(t, 0, INTEGER_KINDS) && HasKind(t, 0, SSE_KINDS)
  {
    hide LeafAt;
    FloatLeaf(t);
    assert 0 / 8 == 0;
    forall o: int, k: Kind | LeafAt(t, o, k)
      ensures k == FloatK
    {
      FloatLeaves(t, o, k);
    }
  }

  lemma FloatLeaf(t: Type)
    requires t.Struct? && |t.fields| == 3 && t.fields[0] == Field(Some("a"), Scalar(FloatK), -1, 0, 0)
    ensures LeafAt(t, 0, FloatK)
  {
    assert t.fields[0].width != 0 && LeafAt(t.fields[0].ty, 0 - t.fields[0].offset, FloatK);
  }

  lemma FloatLeaves(t: Type, o: int, k: Kind)
    requires t.Struct? && (forall j :: 0 <= j < |t.fields| && t.fields[j].width != 0 ==> t.fields[j].ty == Scalar(FloatK))
    requires LeafAt(t, o, k)
    ensures k == FloatK
  {
    var j :| 0 <= j < |t.fields| && t.fields[j].width != 0 && LeafAt(t.fields[j].ty, o - t.fields[j].offset, k);
  }

  lemma AllAligned(fs: seq<Field>)
    requires forall j :: 0 <= j < |fs| ==> Alignof(fs[j].ty) == 4 && (fs[j].offset == 0 || fs[j].offset == 4)
    ensures !Misaligned(fs)
  {
  }
}
