/**
 Looking up a member by name through anonymous structs and unions. The checker and the IR generator
 each have their own search; both find the first member of that name in declaration order, and the
 generator's offset is the sum of the offsets on the way to it.
 */
module Members {
  import opened Wrappers
  import opened Bits
  import opened Types
  import opened Layout
  import opened CompleteTypes

  predicate IsAggregate(t: Type) {
    t.Struct? || t.Union?
  }

  // ----- members and the way to them -----

  /** The field indices that lead from `t` through anonymous aggregates to a member called `name`. */
  predicate IsPath(t: Type, name: string, p: seq<nat>)
    decreases t
  {
    && IsAggregate(t) && |p| > 0 && p[0] < |t.fields|
    && var f := t.fields[p[0]];
       if |p| == 1 then f.name == Some(name) else f.name.None? && IsPath(f.ty, name, p[1..])
  }

  function MemberAt(t: Type, name: string, p: seq<nat>): Field
    requires IsPath(t, name, p)
    decreases t
  {
    var f := t.fields[p[0]];
    if |p| == 1 then f else MemberAt(f.ty, name, p[1..])
  }

  function OffsetOf(t: Type, name: string, p: seq<nat>): int
    requires IsPath(t, name, p)
    decreases t
  {
    var f := t.fields[p[0]];
    f.offset + if |p| == 1 then 0 else OffsetOf(f.ty, name, p[1..])
  }

  /** `p` comes before `q` in the order in which members are declared, or is `q`. */
  predicate NotAfter(p: seq<nat>, q: seq<nat>) {
    p == [] || (q != [] && (p[0] < q[0] || (p[0] == q[0] && NotAfter(p[1..], q[1..]))))
  }

  ghost predicate First(t: Type, name: string, p: seq<nat>) {
    IsPath(t, name, p) && forall q {:trigger IsPath(t, name, q)} :: IsPath(t, name, q) ==> NotAfter(p, q)
  }

  ghost predicate Absent(t: Type, name: string) {
    forall q {:trigger IsPath(t, name, q)} :: !IsPath(t, name, q)
  }

  lemma {:induction false} NotAfterAntisymmetric(p: seq<nat>, q: seq<nat>)
    requires NotAfter(p, q) && NotAfter(q, p)
    ensures p == q
    decreases |p|
  {
    if p != [] && q != [] {
      NotAfterAntisymmetric(p[1..], q[1..]);
      assert p == [p[0]] + p[1..] && q == [q[0]] + q[1..];
    }
  }

  /** At most one path is the first. */
  lemma FirstUnique(t: Type, name: string, p: seq<nat>, q: seq<nat>)
    requires First(t, name, p) && First(t, name, q)
    ensures p == q
  {
    NotAfterAntisymmetric(p, q);
  }

  // ----- what a search has seen after its first k fields -----

  ghost predicate AbsentBefore(t: Type, name: string, k: nat)
    requires IsAggregate(t)
  {
    forall q {:trigger IsPath(t, name, q)} :: IsPath(t, name, q) ==> q[0] >= k
  }

  lemma NamedField(t: Type, name: string, k: nat)
    requires IsAggregate(t) && k < |t.fields| && AbsentBefore(t, name, k) && t.fields[k].name == Some(name)
    ensures First(t, name, [k])
    ensures MemberAt(t, name, [k]) == t.fields[k] && OffsetOf(t, name, [k]) == t.fields[k].offset
  {
    forall q | IsPath(t, name, q) ensures NotAfter([k], q) {}
  }

  lemma NestedField(t: Type, name: string, k: nat, p: seq<nat>)
    requires IsAggregate(t) && k < |t.fields| && AbsentBefore(t, name, k) && t.fields[k].name.None?
    requires First(t.fields[k].ty, name, p)
    ensures First(t, name, [k] + p)
    ensures MemberAt(t, name, [k] + p) == MemberAt(t.fields[k].ty, name, p)
    ensures OffsetOf(t, name, [k] + p) == t.fields[k].offset + OffsetOf(t.fields[k].ty, name, p)
  {
    assert ([k] + p)[1..] == p;
    forall q | IsPath(t, name, q)
      ensures NotAfter([k] + p, q)
    {
      if q[0] == k {
        assert IsPath(t.fields[k].ty, name, q[1..]);
      }
    }
  }

  lemma PathDown(t: Type, name: string, q: seq<nat>)
    requires IsPath(t, name, q) && |q| > 1
    ensures t.fields[q[0]].name.None? && IsPath(t.fields[q[0]].ty, name, q[1..])
  {
  }

  lemma SkippedField(t: Type, name: string, k: nat)
    requires IsAggregate(t) && k < |t.fields| && AbsentBefore(t, name, k)
    requires t.fields[k].name != Some(name) && (t.fields[k].name.None? ==> Absent(t.fields[k].ty, name))
    ensures AbsentBefore(t, name, k + 1)
  {
    forall q | IsPath(t, name, q)
      ensures q[0] >= k + 1
    {
      if |q| > 1 { PathDown(t, name, q); }
    }
  }

  // ----- the two searches -----

  ghost predicate Finds(t: Type, name: string, r: Option<Field>, p: seq<nat>) {
    match r
    case Some(f) => First(t, name, p) && f == MemberAt(t, name, p)
    case None => Absent(t, name)
  }

  ghost predicate FindsAt(t: Type, name: string, r: Option<(Field, int)>, p: seq<nat>) {
    match r
    case Some(r) => First(t, name, p) && r == (MemberAt(t, name, p), OffsetOf(t, name, p))
    case None => Absent(t, name)
  }

  /** The checker's search. The path is ghost: the code returns the field alone. */
  method LookupMember(t: Type, name: string) returns (r: Option<Field>, ghost p: seq<nat>)
    ensures Finds(t, name, r, p)
    decreases t
  {
    p := [];
    if !IsAggregate(t) { return None, p; }
    var i := 0;
    while i < |t.fields|
      invariant 0 <= i <= |t.fields| && AbsentBefore(t, name, i)
    {
      var f := t.fields[i];
      if f.name.Some? && f.name.value == name {
        NamedField(t, name, i);
        return Some(f), [i];
      }
      if f.name.None? && IsAggregate(f.ty) {
        ghost var q;
        r, q := LookupMember(f.ty, name);
        if r.Some? {
          NestedField(t, name, i, q);
          return r, [i] + q;
        }
      }
      SkippedField(t, name, i);
      i := i + 1;
    }
    r := None;
  }

  /** The generator's search, which also adds up the offsets. */
  method FindFieldWithOffset(t: Type, name: string) returns (r: Option<(Field, int)>, ghost p: seq<nat>)
    ensures FindsAt(t, name, r, p)
    decreases t
  {
    p := [];
    if !IsAggregate(t) { return None, p; }
    var i := 0;
    while i < |t.fields|
      invariant 0 <= i <= |t.fields| && AbsentBefore(t, name, i)
    {
      var f := t.fields[i];
      if f.name == Some(name) {
        NamedField(t, name, i);
        return Some((f, f.offset)), [i];
      }
      if f.name.None? && IsAggregate(f.ty) {
        ghost var q;
        r, q := FindFieldWithOffset(f.ty, name);
        if r.Some? {
          NestedField(t, name, i, q);
          return Some((r.value.0, f.offset + r.value.1)), [i] + q;
        }
      }
      SkippedField(t, name, i);
      i := i + 1;
    }
    r := None;
  }

  // ----- agreement -----

  /** Whatever the two searches return, they return the same member, and both or neither. */
  lemma SearchesAgree(t: Type, name: string, f: Option<Field>, p: seq<nat>, g: Option<(Field, int)>, q: seq<nat>)
    requires Finds(t, name, f, p) && FindsAt(t, name, g, q)
    ensures f.Some? <==> g.Some?
    ensures f.Some? ==> p == q && f.value == g.value.0
  {
    if f.Some? {
      assert IsPath(t, name, p);
      FirstUnique(t, name, p, q);
    }
    assert g.Some? ==> IsPath(t, name, q);
  }

  /** A name that can be reached in one way only is found exactly there. */
  lemma FindsTheMember(t: Type, name: string, only: seq<nat>, g: Option<(Field, int)>, q: seq<nat>)
    requires IsPath(t, name, only) && forall p {:trigger IsPath(t, name, p)} :: IsPath(t, name, p) ==> p == only
    requires FindsAt(t, name, g, q)
    ensures g == Some((MemberAt(t, name, only), OffsetOf(t, name, only)))
  {
  }

  /** The bytes of a member lie inside the outermost object, at a multiple of its alignment. */
  lemma {:induction false} MemberInside(t: Type, name: string, p: seq<nat>)
    requires Complete(t) && IsPath(t, name, p) && MemberAt(t, name, p).width != 0
    ensures var f, o := MemberAt(t, name, p), OffsetOf(t, name, p);
            && 0 <= o && o + Sizeof(f.ty) <= Sizeof(t)
            && MultipleOf(o, Alignof(f.ty)) && MultipleOf(Alignof(t), Alignof(f.ty))
    decreases t
  {
    hide SealStruct, SealUnion, StructFits, MultipleOf, Alignof;
    var f := t.fields[p[0]];
    assert Complete(f.ty) && WidthOk(f);
    assert f.width != 0;
    FieldPlace(t, p[0]);
    if |p| > 1 {
      var al := Alignof(MemberAt(f.ty, name, p[1..]).ty);
      MemberInside(f.ty, name, p[1..]);
      MultiplePart(f.offset, Alignof(f.ty), al);
      MultiplePart(Alignof(t), Alignof(f.ty), al);
      MultipleSum(f.offset, OffsetOf(f.ty, name, p[1..]), al);
    }
  }

  lemma FieldPlace(t: Type, j: nat)
    requires Complete(t) && IsAggregate(t) && j < |t.fields| && t.fields[j].width != 0
    ensures var g := t.fields[j];
            && 0 <= g.offset && g.offset + Sizeof(g.ty) <= Sizeof(t)
            && MultipleOf(g.offset, Alignof(g.ty)) && MultipleOf(Alignof(t), Alignof(g.ty))
  {
    hide SealStruct, SealUnion, StructFits, Sizeof, LeastMultiple, MaxSize, End, Lawful, FieldsOk;
    if t.Struct? {
      StructFacts(t);
    } else {
      UnionFacts(t);
    }
    StructAlign(t);
    FieldInside(t, j);
    assert Sizeof(t) == t.size by { SizeOfAggregate(t); }
  }

  lemma SizeOfAggregate(t: Type)
    requires IsAggregate(t)
    ensures Sizeof(t) == t.size
  {
  }

  lemma MultipleSum(a: int, b: int, al: int)
    requires MultipleOf(a, al) && MultipleOf(b, al)
    ensures MultipleOf(a + b, al)
  {
    MultipleDifference(0, b, al);
    MultipleDifference(a, -b, al);
  }

  // ----- the search without an offset -----

  /** The anonymous aggregates on the way to the member all start where the object does. */
  predicate OuterAtZero(t: Type, name: string, p: seq<nat>)
    requires IsPath(t, name, p)
    decreases t
  {
    |p| == 1 || (t.fields[p[0]].offset == 0 && OuterAtZero(t.fields[p[0]].ty, name, p[1..]))
  }

  /**
   Initializers look up a designated member without the running offset and use the offset stored in
   the field itself. That is the member's place exactly when the aggregates around it add nothing.
   */
  lemma {:induction false} OwnOffsetExact(t: Type, name: string, p: seq<nat>)
    requires Complete(t) && IsPath(t, name, p) && MemberAt(t, name, p).width != 0
    ensures MemberAt(t, name, p).offset <= OffsetOf(t, name, p)
    ensures MemberAt(t, name, p).offset == OffsetOf(t, name, p) <==> OuterAtZero(t, name, p)
    decreases t
  {
    hide SealStruct, SealUnion, StructFits, Sizeof, Alignof;
    if |p| > 1 {
      assert Complete(t.fields[p[0]].ty) && WidthOk(t.fields[p[0]]);
      FieldInside(t, p[0]);
      OwnOffsetExact(t.fields[p[0]].ty, name, p[1..]);
    }
  }

  // ----- an example -----

  const INT4 := Scalar(IntK)
  const PAIR := Struct([Field(Some("a"), INT4, -1, 0, 0), Field(Some("b"), INT4, -1, 4, 0)], 8, 4)
  const OUTER := Struct([Field(Some("x"), INT4, -1, 0, 0), Field(None, PAIR, -1, 4, 0)], 12, 4)

  lemma FourPlaced(c: Cursor, f: Field)
    requires Alignof(f.ty) == 4 && f.width == -1 && (c.offset == 0 || c.offset == 4) && c.maxAlign <= 4 && c.next == 0
    ensures Place(c, f) == (c.(offset := c.offset + Sizeof(f.ty), maxAlign := 4), f.(offset := c.offset))
  {
    hide AlignUp;
    MaskIsLeast(c.offset, 4);
  }

  lemma TwoPlaced(f: Field, g: Field)
    requires Alignof(f.ty) == Alignof(g.ty) == Sizeof(f.ty) == 4 && f.width == g.width == -1
    requires Sizeof(g.ty) == 4 || Sizeof(g.ty) == 8
    ensures SealStruct([f, g]) == Struct([f.(offset := 0), g.(offset := 4)], 4 + Sizeof(g.ty), 4)
    ensures StructFits([f, g])
  {
    hide AlignUp, Place, Sizeof, Alignof;
    var fs, c := [f, g], Cursor(0, 1, 0, 0, 0, 1);
    assert After(fs, 0) == c;
    FourPlaced(c, f);
    assert After(fs, 1) == c.(offset := 4, maxAlign := 4);
    FourPlaced(After(fs, 1), g);
    assert After(fs, 2) == c.(offset := 4 + Sizeof(g.ty), maxAlign := 4);
    MaskIsLeast(4 + Sizeof(g.ty), 4);
    assert SealStruct(fs).fields == [f.(offset := 0), g.(offset := 4)];
  }

  lemma ExamplesSealed()
    ensures PAIR == SealStruct(PAIR.fields) && StructFits(PAIR.fields)
    ensures OUTER == SealStruct(OUTER.fields) && StructFits(OUTER.fields)
  {
    hide SealStruct, StructFits;
    TwoPlaced(PAIR.fields[0], PAIR.fields[1]);
    TwoPlaced(OUTER.fields[0], OUTER.fields[1]);
    assert PAIR.fields == [PAIR.fields[0], PAIR.fields[1]] && OUTER.fields == [OUTER.fields[0], OUTER.fields[1]];
  }

  /** In `struct { int x; struct { int a, b; }; }`, as sealing lays it out, the field `b` says 4 and stands at 8. */
  lemma OwnOffsetDiffers()
    ensures PAIR == SealStruct(PAIR.fields) && OUTER == SealStruct(OUTER.fields) && Complete(OUTER)
    ensures First(OUTER, "a", [1, 0]) && MemberAt(OUTER, "a", [1, 0]).offset == 0 && OffsetOf(OUTER, "a", [1, 0]) == 4
    ensures First(OUTER, "b", [1, 1]) && MemberAt(OUTER, "b", [1, 1]).offset == 4 && OffsetOf(OUTER, "b", [1, 1]) == 8
  {
    hide SealStruct, StructFits, NotAfter;
    ExamplesSealed();
    assert Complete(PAIR);
    NamedField(PAIR, "a", 0);
    SkippedField(PAIR, "b", 0);
    NamedField(PAIR, "b", 1);
    SkippedField(OUTER, "a", 0);
    SkippedField(OUTER, "b", 0);
    NestedField(OUTER, "a", 1, [0]);
    NestedField(OUTER, "b", 1, [1]);
    assert [1] + [0] == [1, 0] && [1] + [1] == [1, 1];
  }
}
