/** Declaration specifiers: what the parser records of them, and why no list with one type clashes. */
module Specifiers {
  import opened Wrappers
  import opened Pratt
  import opened Syntax
  import opened FirstTokens
  import opened Names

  /** Keywords that begin a declaration. */
  predicate StartsType(t: Tok) {
    t.Key? &&
    match t.k
    case KwVoid => true case KwBool => true case KwChar => true case KwShort => true case KwInt => true
    case KwLong => true case KwFloat => true case KwDouble => true case KwComplex => true case KwImaginary => true
    case KwSigned => true case KwUnsigned => true case Struct => true case Union => true case Enum => true
    case Const => true case Volatile => true case Restrict => true case Inline => true case Extern => true
    case Static => true case Auto => true case Register => true case Typedef => true case BuiltinVaList => true
    case Typeof => true case Attribute => true case Asm => true case Extension => true case Nonnull => true
    case Noreturn => true case Nullable => true
    case _ => false
  }

  datatype DeclSpec = DeclSpec(storage: Option<Word>, flags: set<Word>, longLong: bool, base: Option<Shape>)

  /** `signed` and `unsigned` together, with nothing else that would settle the type first. */
  predicate BadCombination(ds: DeclSpec) {
    && ds.base.None? && KwSigned in ds.flags && KwUnsigned in ds.flags
    && ds.flags * {KwVoid, KwBool, KwFloat, KwDouble, KwChar, KwShort, KwLong} == {}
  }

  /** What the specifiers so far have set. */
  predicate Tallied(ds: DeclSpec, seen: bool, done: seq<Spec>) {
    var m := TypeWords(done);
    && Storage(done) == (if ds.storage.Some? then [ds.storage.value] else [])
    && (forall k :: k in ds.flags <==> k in m) && (ds.longLong <==> m[KwLong] >= 2)
    && seen == Settled(done) && (ds.base.Some? <==> Solid(done) > 0)
  }

  /** A type keyword that clashes with any type before it, where the others clash with themselves. */
  predicate IsLone(k: Word) {
    k == KwVoid || k == KwBool || k == KwFloat
  }

  /** One more specifier clashes with nothing. */
  predicate Admits(ds: DeclSpec, seen: bool, s: Spec) {
    match s
    case SpecWord(k) =>
      if IsStorage(k) then ds.storage.None?
      else if k == KwLong then !ds.longLong
      else if IsLone(k) then !seen
      else IsTypeWord(k) ==> k !in ds.flags
    case _ => !seen
  }

  predicate Adds(ds: DeclSpec, seen: bool, s: Spec, ds1: DeclSpec, seen1: bool) {
    match s
    case SpecWord(k) =>
      if IsStorage(k) then ds1 == ds.(storage := Some(k)) && seen1 == seen
      else if k == KwLong && KwLong in ds.flags then ds1 == ds.(longLong := true) && seen1 == seen
      else if IsTypeWord(k) then ds1 == ds.(flags := ds.flags + {k}) && seen1 == (seen || IsLone(k))
      else ds1 == ds && seen1 == seen
    case _ => ds1 == ds.(base := ds1.base) && ds1.base.Some? && seen1
  }

  lemma NoneYet()
    ensures Tallied(DeclSpec(None, {}, false, None), false, [])
  {
  }

  lemma {:induction false} WordsGrow(specs: seq<Spec>, i: nat)
    requires i <= |specs|
    ensures TypeWords(specs[..i]) <= TypeWords(specs) && Solid(specs[..i]) <= Solid(specs)
    ensures |Storage(specs[..i])| <= |Storage(specs)|
    decreases |specs| - i
  {
    hide TypeWords, Storage, Solid;
    if i == |specs| {
      assert specs[..i] == specs;
    } else {
      WordsGrow(specs, i + 1);
      WordsSnoc(specs, i);
    }
  }

  lemma WordsSnoc(specs: seq<Spec>, i: nat)
    requires i < |specs|
    ensures var s := specs[i];
            && TypeWords(specs[..i + 1]) ==
               TypeWords(specs[..i]) + (if s.SpecWord? && IsTypeWord(s.k) then multiset{s.k} else multiset{})
            && Storage(specs[..i + 1]) == Storage(specs[..i]) + (if s.SpecWord? && IsStorage(s.k) then [s.k] else [])
            && Solid(specs[..i + 1]) == Solid(specs[..i]) + if s.SpecWord? then 0 else 1
  {
    assert specs[..i + 1][..i] == specs[..i];
  }

  lemma WordKinds(k: Word)
    ensures IsStorage(k) ==> !IsTypeWord(k)
    ensures IsLone(k) || k == KwLong ==> IsTypeWord(k) && !IsStorage(k)
  {
  }

  /** What the words of one type allow: no keyword twice but `long`, and nothing beside a lone one. */
  lemma CombinationCounts(m: multiset<Word>, k: Word)
    requires Combination(m)
    ensures m[k] <= 2 && (k != KwLong ==> m[k] <= 1)
    ensures m[KwVoid] + m[KwBool] + m[KwFloat] <= 1
    ensures !(KwSigned in m && KwUnsigned in m)
  {
    assert k !in m ==> m[k] == 0;
  }

  /** In a list with one type, no specifier clashes with those before it. */
  lemma TallyAdmits(ds: DeclSpec, seen: bool, specs: seq<Spec>, i: nat)
    requires OneType(specs) && i < |specs| && Tallied(ds, seen, specs[..i])
    ensures Admits(ds, seen, specs[i])
  {
    hide TypeWords, Storage, Solid, IsTypeWord, IsStorage, Combination, IsLone;
    WordsGrow(specs, i + 1);
    WordsSnoc(specs, i);
    if specs[i].SpecWord? {
      WordAdmits(ds, seen, specs, i);
    } else {
      WordsGrow(specs, i);
      assert Solid(specs) == 1 && TypeWords(specs) == multiset{};
      assert forall k :: k in TypeWords(specs[..i]) ==> k in TypeWords(specs);
    }
  }

  lemma WordAdmits(ds: DeclSpec, seen: bool, specs: seq<Spec>, i: nat)
    requires OneType(specs) && i < |specs| && Tallied(ds, seen, specs[..i]) && specs[i].SpecWord?
    ensures Admits(ds, seen, specs[i])
  {
    hide TypeWords, Storage, Solid, IsTypeWord, IsStorage, Combination;
    var k, m, whole := specs[i].k, TypeWords(specs[..i]), TypeWords(specs);
    WordKinds(k);
    WordsGrow(specs, i + 1);
    WordsSnoc(specs, i);
    if IsTypeWord(k) {
      assert k in whole;
      CombinationCounts(whole, k);
      assert m + multiset{k} <= whole;
    }
  }

  lemma TallyAdds(ds: DeclSpec, seen: bool, specs: seq<Spec>, i: nat, ds1: DeclSpec, seen1: bool)
    requires i < |specs| && Tallied(ds, seen, specs[..i])
    requires Admits(ds, seen, specs[i]) && Adds(ds, seen, specs[i], ds1, seen1)
    ensures Tallied(ds1, seen1, specs[..i + 1])
  {
    hide TypeWords, Storage, Solid, IsTypeWord, IsStorage;
    WordsSnoc(specs, i);
    if specs[i].SpecWord? {
      WordKinds(specs[i].k);
    }
  }

  lemma TallyEnds(ds: DeclSpec, seen: bool, specs: seq<Spec>)
    requires OneType(specs) && Tallied(ds, seen, specs)
    ensures !BadCombination(ds) && (ds.storage == Some(Typedef) <==> IsTypedef(specs)) && seen == Settled(specs)
  {
    hide TypeWords, Storage, Solid, Combination;
    var m := TypeWords(specs);
    if ds.base.None? {
      CombinationCounts(m, KwSigned);
    }
  }

  // ----- keywords -----

  lemma PlainStartsNoType(t: Tok)
    ensures t.Plain? ==> !StartsType(t) && !IsAttribute(t)
  {
  }

  lemma KeyKinds(k: Word)
    ensures IsStorage(k) || IsQualifier(k) || k == Inline || k == Struct || k == Union || k == Enum || IsTypeWord(k) ==>
              !IsAttribute(Key(k))
  {
  }

  lemma TagKinds(k: Word)
    requires k == Struct || k == Union || k == Enum || k == Typeof
    ensures !IsStorage(k) && !IsQualifier(k) && !IsTypeWord(k) && k != Inline
  {
  }

  lemma TypeKinds(k: Word)
    requires StartsType(Key(k)) && !IsStorage(k) && !IsQualifier(k) && k != Inline && !IsAttribute(Key(k))
    ensures k == Struct || k == Union || k == Enum || k == Typeof || IsTypeWord(k) || k == KwImaginary || k == BuiltinVaList
  {
  }

  lemma PlainAdds(ds: DeclSpec, seen: bool, k: Word)
    requires k == Inline || k == Const || k == Volatile || k == Restrict
    ensures Adds(ds, seen, SpecWord(k), ds, seen)
  {
  }

  lemma NameAdmits(ds: DeclSpec, seen: bool, s: Spec)
    requires Admits(ds, seen, s)
    ensures !s.SpecWord? ==> !seen
  {
  }

  lemma NameAdds(ds: DeclSpec, seen: bool, x: string, ds1: DeclSpec)
    requires ds1 == ds.(base := ds1.base) && ds1.base.Some?
    ensures Adds(ds, seen, SpecName(x), ds1, true)
  {
  }
}
