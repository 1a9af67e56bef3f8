/** Where the parts of declarations stand in a stream of tokens: specifiers, declarators and initializers. */
module DeclPlaces {
  import opened Wrappers
  import opened Pratt
  import opened Syntax
  import opened Spine
  import opened FirstTokens
  import opened Places
  import G = CGrammar

  // ----- specifiers -----

  /** What comes after specifiers is none. */
  ghost predicate SpecsEnd(specs: seq<Spec>, ts: iset<string>, t: Tok) {
    t.Plain? && t != Plain(LBrace) && (t.t.Ident? && t.t.name in ts ==> Settled(specs))
  }

  ghost predicate SpecsAt(toks: seq<Tok>, at: nat, specs: seq<Spec>, ts: iset<string>) {
    && Spells(toks, at, FlatSpecs(specs)) && GoodSpecs(specs, ts)
    && SpecsEnd(specs, AfterSpecs(specs, ts), TokAt(toks, at + |FlatSpecs(specs)|))
  }

  /** The specifiers from the i-th on. */
  ghost predicate SpecsFrom(toks: seq<Tok>, at: nat, specs: seq<Spec>, i: nat, ts: iset<string>) {
    && i <= |specs| && OneType(specs) && Spells(toks, at, FlatSpecs(specs[i..])) && GoodList(specs[i..], ts)
    && SpecsEnd(specs, AfterSpecs(specs[i..], ts), TokAt(toks, at + |FlatSpecs(specs[i..])|))
  }

  /** What follows does not continue a specifier. */
  predicate Quiet(t: Tok) {
    t != Plain(LBrace) && !IsAttribute(t)
  }

  ghost predicate SpecAt(toks: seq<Tok>, at: nat, s: Spec, ts: iset<string>) {
    Spells(toks, at, FlatSpec(s)) && GoodSpec(s, ts) && Quiet(TokAt(toks, at + |FlatSpec(s)|))
  }

  lemma SpecsBegin(toks: seq<Tok>, at: nat, specs: seq<Spec>, ts: iset<string>)
    requires SpecsAt(toks, at, specs, ts)
    ensures SpecsFrom(toks, at, specs, 0, ts) && specs[0..] == specs && specs != []
  {
    hide FlatSpecs, GoodList, OneType, SpecsEnd;
    assert specs != [] by { HasType(specs); }
    assert specs[0..] == specs;
  }

  lemma SpecsDone(toks: seq<Tok>, at: nat, specs: seq<Spec>, ts: iset<string>)
    requires SpecsFrom(toks, at, specs, |specs|, ts)
    ensures FlatSpecs(specs[|specs|..]) == [] && AfterSpecs(specs[|specs|..], ts) == ts
    ensures SpecsEnd(specs, ts, TokAt(toks, at))
  {
    hide OneType, SpecsEnd;
  }

  lemma SpecsStep(toks: seq<Tok>, at: nat, specs: seq<Spec>, i: nat, ts: iset<string>)
    requires SpecsFrom(toks, at, specs, i, ts) && i < |specs|
    ensures SpecAt(toks, at, specs[i], ts)
    ensures SpecsFrom(toks, at + |FlatSpec(specs[i])|, specs, i + 1, AfterSpec(specs[i], ts))
    ensures AfterSpecs(specs[i..], ts) == AfterSpecs(specs[i + 1..], AfterSpec(specs[i], ts))
    ensures |FlatSpecs(specs[i..])| == |FlatSpec(specs[i])| + |FlatSpecs(specs[i + 1..])|
  {
    hide FlatSpecs, FlatSpec, GoodSpec, GoodList, AfterSpecs, AfterSpec, OneType, Spells;
    SpecsText(specs, i, ts);
    SpellsBoth(toks, at, FlatSpec(specs[i]), FlatSpecs(specs[i + 1..]));
    SpecsNext(toks, at + |FlatSpec(specs[i])|, specs, i + 1, AfterSpec(specs[i], ts));
  }

  lemma SpecsText(specs: seq<Spec>, i: nat, ts: iset<string>)
    requires i < |specs|
    ensures FlatSpecs(specs[i..]) == FlatSpec(specs[i]) + FlatSpecs(specs[i + 1..])
    ensures AfterSpecs(specs[i..], ts) == AfterSpecs(specs[i + 1..], AfterSpec(specs[i], ts))
    ensures GoodList(specs[i..], ts) ==> GoodSpec(specs[i], ts) && GoodList(specs[i + 1..], AfterSpec(specs[i], ts))
  {
    hide FlatSpec, GoodSpec, AfterSpec;
    assert specs[i..][0] == specs[i] && specs[i..][1..] == specs[i + 1..];
  }

  /** A further specifier, or what comes after the last one, does not continue the one before. */
  lemma SpecsNext(toks: seq<Tok>, at: nat, specs: seq<Spec>, i: nat, ts: iset<string>)
    requires SpecsFrom(toks, at, specs, i, ts)
    ensures Quiet(TokAt(toks, at))
  {
    hide FlatSpecs, FlatSpec, GoodSpec, GoodList, AfterSpecs, AfterSpec, OneType, StartsDeclaration;
    if i == |specs| {
      SpecsDone(toks, at, specs, ts);
    } else {
      SpecsText(specs, i, ts);
      SpecFirst(specs[i], ts);
      SpellsFirst(toks, at, FlatSpecs(specs[i..]));
      SpecQuiet(FlatSpec(specs[i])[0], ts);
    }
  }

  lemma SpecQuiet(t: Tok, ts: iset<string>)
    requires StartsDeclaration(t, ts)
    ensures Quiet(t)
  {
  }

  lemma WordHere(toks: seq<Tok>, at: nat, s: Spec, ts: iset<string>)
    requires SpecAt(toks, at, s, ts) && s.SpecWord?
    ensures TokAt(toks, at) == Key(s.k) && |FlatSpec(s)| == 1 && AfterSpec(s, ts) == ts
    ensures IsStorage(s.k) || IsQualifier(s.k) || IsTypeWord(s.k) || s.k == Inline
  {
    SpellsKey(toks, at, s.k, []);
  }

  lemma NameHere(toks: seq<Tok>, at: nat, s: Spec, ts: iset<string>)
    requires SpecAt(toks, at, s, ts) && s.SpecName?
    ensures TokAt(toks, at) == Plain(Ident(s.x)) && |FlatSpec(s)| == 1 && AfterSpec(s, ts) == ts && s.x in ts
  {
    SpellsToken(toks, at, Ident(s.x), []);
  }

  // ----- structs, unions and enums -----

  ghost predicate MembersAt(toks: seq<Tok>, at: nat, ms: seq<MemberDecl>, ts: iset<string>) {
    Spells(toks, at, FlatMembers(ms)) && GoodMembers(ms, ts) && TokAt(toks, at + |FlatMembers(ms)|) == Plain(RBrace)
  }

  ghost predicate EnumeratorsAt(toks: seq<Tok>, at: nat, es: seq<Enumerator>, trailing: bool, ts: iset<string>) {
    && Spells(toks, at, FlatEnumerators(es, trailing)) && GoodEnumerators(es, ts)
    && TokAt(toks, at + |FlatEnumerators(es, trailing)|) == Plain(RBrace)
  }

  /** Where the brace is, after the keyword and the tag if there is one. */
  function BraceOf(at: nat, tag: Option<string>): nat {
    at + 1 + if tag.Some? then 1 else 0
  }

  lemma TagHere(toks: seq<Tok>, at: nat, k: Word, tag: Option<string>, rest: seq<Tok>)
    requires Spells(toks, at, Ks(k) + (FlatTag(tag) + rest)) && k != Eof
    ensures TokAt(toks, at) == Key(k) && (tag.Some? ==> TokAt(toks, at + 1) == Plain(Ident(tag.value)))
    ensures Spells(toks, BraceOf(at, tag), rest)
    ensures at + |Ks(k) + (FlatTag(tag) + rest)| == BraceOf(at, tag) + |rest|
  {
    SpellsKey(toks, at, k, FlatTag(tag) + rest);
    SpellsBoth(toks, at + 1, FlatTag(tag), rest);
    if tag.Some? {
      SpellsToken(toks, at + 1, Ident(tag.value), []);
    }
  }

  /** `{ body }` */
  lemma BracedHere(toks: seq<Tok>, at: nat, body: seq<Tok>)
    requires Spells(toks, at, Ts(LBrace) + (body + Ts(RBrace)))
    ensures TokAt(toks, at) == Plain(LBrace) && Spells(toks, at + 1, body) && TokAt(toks, at + 1 + |body|) == Plain(RBrace)
    ensures |Ts(LBrace) + (body + Ts(RBrace))| == |body| + 2
  {
    SpellsToken(toks, at, LBrace, body + Ts(RBrace));
    SpellsBoth(toks, at + 1, body, Ts(RBrace));
    SpellsToken(toks, at + 1 + |body|, RBrace, []);
  }

  lemma RecordHead(toks: seq<Tok>, at: nat, s: Spec, ts: iset<string>)
    requires Spells(toks, at, FlatSpec(s)) && s.Record? && GoodSpec(s, ts)
    ensures (s.k == Struct || s.k == Union) && (s.tag.Some? || s.members.Some?)
    ensures TokAt(toks, at) == Key(s.k) && (s.tag.Some? ==> TokAt(toks, at + 1) == Plain(Ident(s.tag.value)))
    ensures s.members.None? ==> at + |FlatSpec(s)| == BraceOf(at, s.tag) && AfterSpec(s, ts) == ts
    ensures s.members.Some? ==>
              var b := s.members.value;
              && Spells(toks, BraceOf(at, s.tag), FlatBody(b)) && at + |FlatSpec(s)| == BraceOf(at, s.tag) + |FlatBody(b)|
              && GoodMembers(b.list, ts) && AfterSpec(s, ts) == AfterMembers(b.list, ts)
  {
    hide FlatBody, GoodMembers, AfterMembers, FlatTag, Spells;
    TagHere(toks, at, s.k, s.tag, if s.members.Some? then FlatBody(s.members.value) else []);
  }

  lemma BodyHere(toks: seq<Tok>, at: nat, b: MemberList)
    requires Spells(toks, at, FlatBody(b))
    ensures TokAt(toks, at) == Plain(LBrace) && Spells(toks, at + 1, FlatMembers(b.list))
    ensures TokAt(toks, at + 1 + |FlatMembers(b.list)|) == Plain(RBrace) && |FlatBody(b)| == |FlatMembers(b.list)| + 2
  {
    hide FlatMembers, Spells;
    BracedHere(toks, at, FlatMembers(b.list));
  }

  lemma RecordHere(toks: seq<Tok>, at: nat, s: Spec, ts: iset<string>)
    requires SpecAt(toks, at, s, ts) && s.Record?
    ensures (s.k == Struct || s.k == Union) && TokAt(toks, at) == Key(s.k)
    ensures s.tag.Some? ==> TokAt(toks, at + 1) == Plain(Ident(s.tag.value))
    ensures var b := BraceOf(at, s.tag);
            if s.members.None? then
              s.tag.Some? && TokAt(toks, b) != Plain(LBrace) && at + |FlatSpec(s)| == b && AfterSpec(s, ts) == ts
            else
              var ms := s.members.value.list;
              && TokAt(toks, b) == Plain(LBrace) && MembersAt(toks, b + 1, ms, ts)
              && at + |FlatSpec(s)| == b + 2 + |FlatMembers(ms)| && AfterSpec(s, ts) == AfterMembers(ms, ts)
              && !IsAttribute(TokAt(toks, at + |FlatSpec(s)|))
  {
    hide FlatMembers, GoodMembers, AfterMembers, FlatSpec, GoodSpec, AfterSpec, FlatBody, Spells;
    RecordHead(toks, at, s, ts);
    if s.members.Some? {
      BodyHere(toks, BraceOf(at, s.tag), s.members.value);
    }
  }

  lemma EnumerationHead(toks: seq<Tok>, at: nat, s: Spec, ts: iset<string>)
    requires Spells(toks, at, FlatSpec(s)) && s.Enumeration? && GoodSpec(s, ts)
    ensures s.tag.Some? || s.enums.Some?
    ensures TokAt(toks, at) == Key(Enum) && (s.tag.Some? ==> TokAt(toks, at + 1) == Plain(Ident(s.tag.value)))
    ensures s.enums.None? ==> at + |FlatSpec(s)| == BraceOf(at, s.tag) && AfterSpec(s, ts) == ts
    ensures s.enums.Some? ==>
              var b := s.enums.value;
              && Spells(toks, BraceOf(at, s.tag), FlatEnums(b)) && at + |FlatSpec(s)| == BraceOf(at, s.tag) + |FlatEnums(b)|
              && GoodEnumerators(b.list, ts) && AfterSpec(s, ts) == AfterEnums(b.list, ts)
  {
    hide FlatEnums, GoodEnumerators, AfterEnums, FlatTag, Spells;
    TagHere(toks, at, Enum, s.tag, if s.enums.Some? then FlatEnums(s.enums.value) else []);
  }

  lemma EnumsHere(toks: seq<Tok>, at: nat, b: EnumeratorList)
    requires Spells(toks, at, FlatEnums(b))
    ensures TokAt(toks, at) == Plain(LBrace) && Spells(toks, at + 1, FlatEnumerators(b.list, b.trailing))
    ensures TokAt(toks, at + 1 + |FlatEnumerators(b.list, b.trailing)|) == Plain(RBrace)
    ensures |FlatEnums(b)| == |FlatEnumerators(b.list, b.trailing)| + 2
  {
    hide FlatEnumerators, Spells;
    BracedHere(toks, at, FlatEnumerators(b.list, b.trailing));
  }

  lemma EnumerationHere(toks: seq<Tok>, at: nat, s: Spec, ts: iset<string>)
    requires SpecAt(toks, at, s, ts) && s.Enumeration?
    ensures TokAt(toks, at) == Key(Enum)
    ensures s.tag.Some? ==> TokAt(toks, at + 1) == Plain(Ident(s.tag.value))
    ensures var b := BraceOf(at, s.tag);
            if s.enums.None? then
              s.tag.Some? && TokAt(toks, b) != Plain(LBrace) && at + |FlatSpec(s)| == b && AfterSpec(s, ts) == ts
            else
              var es, trailing := s.enums.value.list, s.enums.value.trailing;
              && TokAt(toks, b) == Plain(LBrace) && EnumeratorsAt(toks, b + 1, es, trailing, ts)
              && at + |FlatSpec(s)| == b + 2 + |FlatEnumerators(es, trailing)| && AfterSpec(s, ts) == AfterEnums(es, ts)
              && !IsAttribute(TokAt(toks, at + |FlatSpec(s)|))
  {
    hide FlatEnumerators, GoodEnumerators, AfterEnums, FlatSpec, GoodSpec, AfterSpec, FlatEnums, Spells;
    EnumerationHead(toks, at, s, ts);
    if s.enums.Some? {
      EnumsHere(toks, BraceOf(at, s.tag), s.enums.value);
    }
  }

  ghost predicate MemberAt(toks: seq<Tok>, at: nat, m: MemberDecl, ts: iset<string>) {
    Spells(toks, at, FlatMember(m)) && GoodMember(m, ts) && TokAt(toks, at + |FlatMember(m)|) == Plain(Semicolon)
  }

  lemma MembersDone(toks: seq<Tok>, at: nat, ms: seq<MemberDecl>, ts: iset<string>)
    requires MembersAt(toks, at, ms, ts) && ms == []
    ensures TokAt(toks, at) == Plain(RBrace) && FlatMembers(ms) == [] && AfterMembers(ms, ts) == ts
  {
  }

  lemma MembersStep(toks: seq<Tok>, at: nat, ms: seq<MemberDecl>, ts: iset<string>)
    requires MembersAt(toks, at, ms, ts) && ms != []
    ensures MemberAt(toks, at, ms[0], ts) && TokAt(toks, at) != Plain(RBrace) && at < |toks|
    ensures var next := at + |FlatMember(ms[0])|;
            && TokAt(toks, next) == Plain(Semicolon) && MembersAt(toks, next + 1, ms[1..], AfterMember(ms[0], ts))
            && |FlatMembers(ms)| == |FlatMember(ms[0])| + 1 + |FlatMembers(ms[1..])|
    ensures AfterMembers(ms, ts) == AfterMembers(ms[1..], AfterMember(ms[0], ts))
  {
    hide FlatMember, FlatMembers, GoodMember, GoodMembers, AfterMember, AfterMembers, Spells, StartsDeclaration;
    var m := ms[0];
    MembersText(ms, ts);
    SpellsBoth(toks, at, FlatMember(m), Ts(Semicolon) + FlatMembers(ms[1..]));
    SpellsToken(toks, at + |FlatMember(m)|, Semicolon, FlatMembers(ms[1..]));
    MemberBegins(toks, at, m, ts);
  }

  lemma MemberBegins(toks: seq<Tok>, at: nat, m: MemberDecl, ts: iset<string>)
    requires Spells(toks, at, FlatMember(m)) && GoodMember(m, ts)
    ensures TokAt(toks, at) != Plain(RBrace) && at < |toks|
  {
    hide FlatMember, GoodMember, StartsDeclaration;
    MemberFirst(m, ts);
    SpellsFirst(toks, at, FlatMember(m));
    StartsNeither(FlatMember(m)[0], ts);
  }

  lemma MembersText(ms: seq<MemberDecl>, ts: iset<string>)
    requires ms != []
    ensures FlatMembers(ms) == FlatMember(ms[0]) + (Ts(Semicolon) + FlatMembers(ms[1..]))
    ensures GoodMembers(ms, ts) ==> GoodMember(ms[0], ts) && GoodMembers(ms[1..], AfterMember(ms[0], ts))
    ensures AfterMembers(ms, ts) == AfterMembers(ms[1..], AfterMember(ms[0], ts))
  {
    hide FlatMember, GoodMember, AfterMember;
  }

  lemma MemberFirst(m: MemberDecl, ts: iset<string>)
    requires GoodMember(m, ts)
    ensures FlatMember(m) != [] && StartsDeclaration(FlatMember(m)[0], ts)
  {
    hide GoodSpecs, FlatSpecs, StartsDeclaration, GoodField, FlatFields;
    SpecsFirst(m.specs, ts);
  }

  ghost predicate FieldsAt(toks: seq<Tok>, at: nat, fs: seq<FieldDecl>, ts: iset<string>) {
    && Spells(toks, at, FlatFields(fs)) && (forall i :: 0 <= i < |fs| ==> GoodField(fs[i], ts))
    && TokAt(toks, at + |FlatFields(fs)|) == Plain(Semicolon)
  }

  ghost predicate FieldAt(toks: seq<Tok>, at: nat, f: FieldDecl, ts: iset<string>) {
    var t := TokAt(toks, at + |FlatField(f)|);
    Spells(toks, at, FlatField(f)) && GoodField(f, ts) && (t == Plain(Comma) || t == Plain(Semicolon))
  }

  lemma MemberParts(toks: seq<Tok>, at: nat, m: MemberDecl, ts: iset<string>)
    requires MemberAt(toks, at, m, ts)
    ensures SpecsAt(toks, at, m.specs, ts)
    ensures FieldsAt(toks, at + |FlatSpecs(m.specs)|, m.fields, AfterSpecs(m.specs, ts))
    ensures |FlatMember(m)| == |FlatSpecs(m.specs)| + |FlatFields(m.fields)| && AfterMember(m, ts) == AfterSpecs(m.specs, ts)
  {
    hide GoodSpecs, FlatSpecs, GoodField, FlatFields, AfterSpecs, Settled, NameClear;
    var next, ts1 := at + |FlatSpecs(m.specs)|, AfterSpecs(m.specs, ts);
    SpellsBoth(toks, at, FlatSpecs(m.specs), FlatFields(m.fields));
    if m.fields != [] {
      FieldsText(m.fields);
      FieldFirst(m.specs, m.fields[0], ts1);
      SpellsFirst(toks, next, FlatFields(m.fields));
    } else {
      NoFields();
    }
  }

  lemma NoFields()
    ensures FlatFields([]) == []
  {
  }

  lemma FieldsText(fs: seq<FieldDecl>)
    requires fs != []
    ensures FlatFields(fs) == FlatField(fs[0]) + if |fs| == 1 then [] else Ts(Comma) + FlatFields(fs[1..])
  {
    hide FlatField;
  }

  /** The first token of a member is no further specifier. */
  lemma FieldFirst(specs: seq<Spec>, f: FieldDecl, ts: iset<string>)
    requires GoodField(f, ts) && NameClear(specs, ts, f.d)
    ensures FlatField(f) != [] && SpecsEnd(specs, ts, FlatField(f)[0]) && FlatField(f)[0] != Plain(Semicolon)
  {
    hide GoodDeclarator, FlatDeclarator, FlatExpr, GoodExpr, Settled;
    FieldDeclarator(f, ts);
    DeclaratorFirst(f.d, ts);
  }

  lemma FieldDeclarator(f: FieldDecl, ts: iset<string>)
    requires GoodField(f, ts)
    ensures GoodDeclarator(f.d, ts) && GoodOption(f.width, G.Conditional, ts)
  {
    hide GoodExpr;
  }

  lemma FieldsStep(toks: seq<Tok>, at: nat, fs: seq<FieldDecl>, ts: iset<string>)
    requires FieldsAt(toks, at, fs, ts) && fs != []
    ensures FieldAt(toks, at, fs[0], ts) && TokAt(toks, at) != Plain(Semicolon)
    ensures var next := at + |FlatField(fs[0])|;
            if |fs| == 1 then TokAt(toks, next) == Plain(Semicolon) && |FlatFields(fs)| == |FlatField(fs[0])|
            else && TokAt(toks, next) == Plain(Comma) && FieldsAt(toks, next + 1, fs[1..], ts)
                 && |FlatFields(fs)| == |FlatField(fs[0])| + 1 + |FlatFields(fs[1..])|
  {
    hide FlatField, FlatFields, GoodField, Spells;
    var f := fs[0];
    FieldsText(fs);
    SpellsBoth(toks, at, FlatField(f), if |fs| == 1 then [] else Ts(Comma) + FlatFields(fs[1..]));
    if |fs| > 1 {
      SpellsToken(toks, at + |FlatField(f)|, Comma, FlatFields(fs[1..]));
    }
    assert FlatField(f) != [] && FlatField(f)[0] != Plain(Semicolon) by { FieldNonempty(f, ts); }
    SpellsFirst(toks, at, FlatField(f));
  }

  lemma FieldNonempty(f: FieldDecl, ts: iset<string>)
    requires GoodField(f, ts)
    ensures FlatField(f) != [] && FlatField(f)[0] != Plain(Semicolon)
  {
    hide GoodDeclarator, FlatDeclarator, FlatExpr, GoodExpr;
    FieldDeclarator(f, ts);
    DeclaratorFirst(f.d, ts);
  }

  lemma FieldParts(toks: seq<Tok>, at: nat, f: FieldDecl, ts: iset<string>)
    requires FieldAt(toks, at, f, ts)
    ensures DeclaratorAt(toks, at, f.d, ts)
    ensures var colon := at + |FlatDeclarator(f.d)|;
            if f.width.None? then |FlatField(f)| == |FlatDeclarator(f.d)| && TokAt(toks, colon) != Plain(Colon)
            else && TokAt(toks, colon) == Plain(Colon) && ExprAt(toks, colon + 1, f.width.value, ts, 10)
                 && |FlatField(f)| == |FlatDeclarator(f.d)| + 1 + |FlatExpr(f.width.value)|
  {
    hide GoodDeclarator, FlatDeclarator, FlatExpr, GoodExpr, GoodField, Tight, ExprAt, Spells, Within;
    FieldDeclarator(f, ts);
    var more := if f.width.Some? then Ts(Colon) + FlatExpr(f.width.value) else [];
    SpellsBoth(toks, at, FlatDeclarator(f.d), more);
    if f.width.Some? {
      SpellsToken(toks, at + |FlatDeclarator(f.d)|, Colon, FlatExpr(f.width.value));
      ConditionalAt(toks, at + |FlatDeclarator(f.d)| + 1, f.width.value, ts, 10);
    }
  }

  /** A conditional expression before a comma or a closing token, at the power of an initializer or below. */
  lemma ConditionalAt(toks: seq<Tok>, at: nat, e: Expr, ts: iset<string>, bp: nat)
    requires Spells(toks, at, FlatExpr(e)) && GoodExpr(e, ts) && Within(e, G.Conditional) && 10 <= bp <= 20
    requires var t := TokAt(toks, at + |FlatExpr(e)|);
             t == Plain(Comma) || t == Plain(Semicolon) || t == Plain(RBrace)
    ensures ExprAt(toks, at, e, ts, bp)
  {
    hide GoodExpr, FlatExpr, Tight, Tail, Lbp;
    Closers();
    Floors();
    WithinPower(e, ts, G.Conditional);
    TailAbove(e, ts);
  }

  ghost predicate EnumeratorAt(toks: seq<Tok>, at: nat, e: Enumerator, ts: iset<string>) {
    var t := TokAt(toks, at + |FlatEnumerator(e)|);
    Spells(toks, at, FlatEnumerator(e)) && GoodEnumerator(e, ts) && (t == Plain(Comma) || t == Plain(RBrace))
  }

  lemma EnumeratorParts(toks: seq<Tok>, at: nat, e: Enumerator, ts: iset<string>)
    requires EnumeratorAt(toks, at, e, ts)
    ensures TokAt(toks, at) == Plain(Ident(e.x))
    ensures if e.value.None? then |FlatEnumerator(e)| == 1 && TokAt(toks, at + 1) != Plain(Token.Assign)
            else && TokAt(toks, at + 1) == Plain(Token.Assign) && ExprAt(toks, at + 2, e.value.value, ts, 10)
                 && |FlatEnumerator(e)| == 2 + |FlatExpr(e.value.value)|
  {
    hide FlatExpr, GoodExpr, ExprAt, Within;
    var more := if e.value.Some? then Ts(Token.Assign) + FlatExpr(e.value.value) else [];
    SpellsToken(toks, at, Ident(e.x), more);
    if e.value.Some? {
      SpellsToken(toks, at + 1, Token.Assign, FlatExpr(e.value.value));
      assert |FlatEnumerator(e)| == 2 + |FlatExpr(e.value.value)| && GoodOption(e.value, G.Conditional, ts);
      ConditionalAt(toks, at + 2, e.value.value, ts, 10);
    }
  }

  lemma EnumeratorsText(es: seq<Enumerator>, trailing: bool, ts: iset<string>)
    requires es != []
    ensures FlatEnumerators(es, trailing) ==
            FlatEnumerator(es[0])
            + if |es| > 1 then Ts(Comma) + FlatEnumerators(es[1..], trailing) else if trailing then Ts(Comma) else []
    ensures GoodEnumerators(es, ts) ==> GoodEnumerator(es[0], ts) && GoodEnumerators(es[1..], Naming(ts, es[0].x, false))
    ensures AfterEnums(es, ts) == AfterEnums(es[1..], Naming(ts, es[0].x, false))
  {
    hide FlatEnumerator, GoodEnumerator;
  }

  lemma EnumeratorsDone(toks: seq<Tok>, at: nat, es: seq<Enumerator>, trailing: bool, ts: iset<string>)
    requires EnumeratorsAt(toks, at, es, trailing, ts) && es == []
    ensures TokAt(toks, at) == Plain(RBrace) && FlatEnumerators(es, trailing) == [] && AfterEnums(es, ts) == ts
  {
  }

  lemma EnumeratorsStep(toks: seq<Tok>, at: nat, es: seq<Enumerator>, trailing: bool, ts: iset<string>)
    requires EnumeratorsAt(toks, at, es, trailing, ts) && es != []
    ensures EnumeratorAt(toks, at, es[0], ts) && TokAt(toks, at) == Plain(Ident(es[0].x))
    ensures var next, size := at + |FlatEnumerator(es[0])|, |FlatEnumerators(es, trailing)|;
            if |es| == 1 && !trailing then TokAt(toks, next) == Plain(RBrace) && size == |FlatEnumerator(es[0])|
            else && TokAt(toks, next) == Plain(Comma)
                 && EnumeratorsAt(toks, next + 1, es[1..], trailing, Naming(ts, es[0].x, false))
                 && size == |FlatEnumerator(es[0])| + 1 + |FlatEnumerators(es[1..], trailing)|
    ensures AfterEnums(es, ts) == AfterEnums(es[1..], Naming(ts, es[0].x, false))
  {
    hide FlatEnumerator, FlatEnumerators, GoodEnumerator, GoodEnumerators, AfterEnums, Spells;
    var e := es[0];
    EnumeratorsText(es, trailing, ts);
    var more := if |es| > 1 then Ts(Comma) + FlatEnumerators(es[1..], trailing) else if trailing then Ts(Comma) else [];
    SpellsBoth(toks, at, FlatEnumerator(e), more);
    if |es| > 1 || trailing {
      NoEnumerators(trailing);
      assert |es| == 1 ==> es[1..] == [];
      SpellsToken(toks, at + |FlatEnumerator(e)|, Comma, FlatEnumerators(es[1..], trailing));
      SpellsEmpty(toks, at + |FlatEnumerator(e)| + 1);
    }
    EnumeratorBegins(toks, at, e);
  }

  lemma EnumeratorBegins(toks: seq<Tok>, at: nat, e: Enumerator)
    requires Spells(toks, at, FlatEnumerator(e))
    ensures TokAt(toks, at) == Plain(Ident(e.x))
  {
    hide FlatExpr, Spells;
    SpellsToken(toks, at, Ident(e.x), if e.value.Some? then Ts(Token.Assign) + FlatExpr(e.value.value) else []);
  }

  lemma NoEnumerators(trailing: bool)
    ensures FlatEnumerators([], trailing) == []
  {
  }

  lemma SpellsEmpty(toks: seq<Tok>, at: nat)
    ensures at <= |toks| ==> Spells(toks, at, [])
  {
  }

  // ----- declarators -----

  /** What comes after a declarator. */
  predicate DeclaratorEnd(t: Tok) {
    || t == Plain(Comma) || t == Plain(RParen) || t == Plain(Semicolon) || t == Plain(Token.Assign)
    || t == Plain(Colon) || t == Plain(LBrace)
  }

  ghost predicate DeclaratorAt(toks: seq<Tok>, at: nat, d: Declarator, ts: iset<string>) {
    && Spells(toks, at, FlatDeclarator(d)) && GoodDeclarator(d, ts)
    && DeclaratorEnd(TokAt(toks, at + |FlatDeclarator(d)|))
  }

  predicate AllQualifiers(ks: seq<Word>) {
    forall i :: 0 <= i < |ks| ==> IsQualifier(ks[i])
  }

  /** What comes after the stars is no star and no qualifier. */
  predicate StarsEnd(t: Tok) {
    t.Plain? && t != Plain(Star) && t != Plain(Caret)
  }

  ghost predicate StarsAt(toks: seq<Tok>, at: nat, stars: seq<seq<Word>>) {
    && Spells(toks, at, FlatStars(stars)) && StarsEnd(TokAt(toks, at + |FlatStars(stars)|))
    && forall i :: 0 <= i < |stars| ==> AllQualifiers(stars[i])
  }

  ghost predicate WordsAt(toks: seq<Tok>, at: nat, ks: seq<Word>) {
    Spells(toks, at, FlatWords(ks)) && AllQualifiers(ks) && TokAt(toks, at + |FlatWords(ks)|).Plain?
  }

  ghost predicate SuffixesAt(toks: seq<Tok>, at: nat, ss: seq<Suffix>, ts: iset<string>) {
    && Spells(toks, at, FlatSuffixes(ss)) && DeclaratorEnd(TokAt(toks, at + |FlatSuffixes(ss)|))
    && forall i :: 0 <= i < |ss| ==> GoodSuffix(ss[i], ts)
  }

  ghost predicate SuffixAt(toks: seq<Tok>, at: nat, s: Suffix, ts: iset<string>) {
    Spells(toks, at, FlatSuffix(s)) && GoodSuffix(s, ts)
  }

  lemma WordsStep(toks: seq<Tok>, at: nat, ks: seq<Word>)
    requires WordsAt(toks, at, ks)
    ensures ks == [] ==> FlatWords(ks) == [] && TokAt(toks, at).Plain?
    ensures ks != [] ==>
              && TokAt(toks, at) == Key(ks[0]) && IsQualifier(ks[0]) && at < |toks|
              && WordsAt(toks, at + 1, ks[1..]) && |FlatWords(ks)| == 1 + |FlatWords(ks[1..])|
  {
    hide FlatWords, Spells;
    WordsText(ks);
    if ks != [] {
      QualifierIs(ks[0]);
      SpellsKey(toks, at, ks[0], FlatWords(ks[1..]));
    }
  }

  lemma QualifierIs(k: Word)
    ensures IsQualifier(k) ==> k != Eof
  {
  }

  lemma WordsText(ks: seq<Word>)
    ensures FlatWords(ks) == if ks == [] then [] else Ks(ks[0]) + FlatWords(ks[1..])
  {
  }

  lemma StarsDone(toks: seq<Tok>, at: nat, stars: seq<seq<Word>>)
    requires StarsAt(toks, at, stars) && stars == []
    ensures FlatStars(stars) == [] && StarsEnd(TokAt(toks, at))
  {
  }

  lemma StarsStep(toks: seq<Tok>, at: nat, stars: seq<seq<Word>>)
    requires StarsAt(toks, at, stars) && stars != []
    ensures TokAt(toks, at) == Plain(Star) && WordsAt(toks, at + 1, stars[0]) && at < |toks|
    ensures StarsAt(toks, at + 1 + |FlatWords(stars[0])|, stars[1..])
    ensures |FlatStars(stars)| == 1 + |FlatWords(stars[0])| + |FlatStars(stars[1..])|
  {
    hide AllQualifiers, FlatWords, FlatStars, Spells;
    StarsText(stars);
    SpellsToken(toks, at, Star, FlatWords(stars[0]) + FlatStars(stars[1..]));
    SpellsBoth(toks, at + 1, FlatWords(stars[0]), FlatStars(stars[1..]));
    var next := at + 1 + |FlatWords(stars[0])|;
    assert StarsAt(toks, next, stars[1..]);
    if |stars| > 1 {
      StarsText(stars[1..]);
      SpellsToken(toks, next, Star, FlatWords(stars[1]) + FlatStars(stars[2..]));
      assert stars[1..][1..] == stars[2..];
    } else {
      StarsDone(toks, next, stars[1..]);
    }
  }

  lemma StarsText(stars: seq<seq<Word>>)
    requires stars != []
    ensures FlatStars(stars) == Ts(Star) + (FlatWords(stars[0]) + FlatStars(stars[1..]))
  {
    hide FlatWords;
  }

  /** The core of a declarator: a name, a group, or nothing before bounds or the end. */
  ghost predicate CoreAt(toks: seq<Tok>, at: nat, d: Declarator, ts: iset<string>) {
    match d.core
    case NoName =>
      TokAt(toks, at) != Plain(LParen) && !IsName(TokAt(toks, at)) && SuffixesAt(toks, at, d.suffixes, ts)
    case NameOf(x) => TokAt(toks, at) == Plain(Ident(x)) && SuffixesAt(toks, at + 1, d.suffixes, ts)
    case Grouped(d1) =>
      && TokAt(toks, at) == Plain(LParen) && DeclaratorAt(toks, at + 1, d1, ts)
      && TokAt(toks, at + 1 + |FlatDeclarator(d1)|) == Plain(RParen)
      && SuffixesAt(toks, at + 2 + |FlatDeclarator(d1)|, d.suffixes, ts)
  }

  function CoreSize(c: Core): nat {
    match c
    case NoName => 0
    case NameOf(_) => 1
    case Grouped(d1) => 2 + |FlatDeclarator(d1)|
  }

  lemma DeclaratorParts(toks: seq<Tok>, at: nat, d: Declarator, ts: iset<string>)
    requires DeclaratorAt(toks, at, d, ts)
    ensures !IsAttribute(TokAt(toks, at)) && StarsAt(toks, at, d.stars) && |d.stars| <= 16
    ensures var next := at + |FlatStars(d.stars)|;
            && !IsAttribute(TokAt(toks, next)) && CoreAt(toks, next, d, ts)
            && |FlatDeclarator(d)| == |FlatStars(d.stars)| + CoreSize(d.core) + |FlatSuffixes(d.suffixes)|
  {
    hide FlatStars, FlatCore, FlatSuffixes, GoodDeclarator, GoodSuffix, Spells, FlatDeclarator, AllQualifiers;
    var next := at + |FlatStars(d.stars)|;
    DeclaratorText(d, ts);
    SpellsBoth(toks, at, FlatStars(d.stars), FlatCore(d.core) + FlatSuffixes(d.suffixes));
    CoreHere(toks, next, d, ts);
    if d.stars != [] {
      StarsStep(toks, at, d.stars);
    } else {
      assert FlatStars([]) == [] by { NoStars(); }
    }
  }

  lemma NoStars()
    ensures FlatStars([]) == []
  {
  }

  lemma DeclaratorText(d: Declarator, ts: iset<string>)
    requires GoodDeclarator(d, ts)
    ensures FlatDeclarator(d) == FlatStars(d.stars) + (FlatCore(d.core) + FlatSuffixes(d.suffixes))
    ensures |d.stars| <= 16 && forall i :: 0 <= i < |d.stars| ==> AllQualifiers(d.stars[i])
    ensures forall i :: 0 <= i < |d.suffixes| ==> GoodSuffix(d.suffixes[i], ts)
    ensures d.core.NoName? && d.suffixes != [] ==> d.suffixes[0].Bounds?
    ensures d.core.Grouped? ==> GoodDeclarator(d.core.d, ts)
  {
    hide FlatStars, FlatCore, FlatSuffixes, GoodSuffix;
  }

  lemma CoreHere(toks: seq<Tok>, at: nat, d: Declarator, ts: iset<string>)
    requires GoodDeclarator(d, ts) && Spells(toks, at, FlatCore(d.core) + FlatSuffixes(d.suffixes))
    requires DeclaratorEnd(TokAt(toks, at + |FlatCore(d.core) + FlatSuffixes(d.suffixes)|))
    ensures CoreAt(toks, at, d, ts) && |FlatCore(d.core)| == CoreSize(d.core) && StarsEnd(TokAt(toks, at))
  {
    hide FlatStars, FlatSuffixes, GoodDeclarator, GoodSuffix, Spells, FlatDeclarator, AllQualifiers;
    DeclaratorText(d, ts);
    SpellsBoth(toks, at, FlatCore(d.core), FlatSuffixes(d.suffixes));
    match d.core
    case NoName =>
      if d.suffixes != [] {
        SuffixesText(d.suffixes);
        SuffixFirst(d.suffixes[0]);
        SpellsFirst(toks, at, FlatSuffixes(d.suffixes));
      } else {
        NoSuffixes();
      }
    case NameOf(x) => SpellsToken(toks, at, Ident(x), []);
    case Grouped(d1) =>
      SpellsToken(toks, at, LParen, FlatDeclarator(d1) + Ts(RParen));
      SpellsBoth(toks, at + 1, FlatDeclarator(d1), Ts(RParen));
      SpellsToken(toks, at + 1 + |FlatDeclarator(d1)|, RParen, []);
  }

  lemma NoSuffixes()
    ensures FlatSuffixes([]) == []
  {
  }

  lemma SuffixesText(ss: seq<Suffix>)
    requires ss != []
    ensures FlatSuffixes(ss) == FlatSuffix(ss[0]) + FlatSuffixes(ss[1..])
  {
    hide FlatSuffix;
  }

  lemma SuffixesDone(toks: seq<Tok>, at: nat, ss: seq<Suffix>, ts: iset<string>)
    requires SuffixesAt(toks, at, ss, ts) && ss == []
    ensures FlatSuffixes(ss) == [] && DeclaratorEnd(TokAt(toks, at))
  {
  }

  lemma SuffixesStep(toks: seq<Tok>, at: nat, ss: seq<Suffix>, ts: iset<string>)
    requires SuffixesAt(toks, at, ss, ts) && ss != []
    ensures SuffixAt(toks, at, ss[0], ts) && SuffixesAt(toks, at + |FlatSuffix(ss[0])|, ss[1..], ts)
    ensures |FlatSuffixes(ss)| == |FlatSuffix(ss[0])| + |FlatSuffixes(ss[1..])|
    ensures TokAt(toks, at) == if ss[0].Bounds? then Plain(LBracket) else Plain(LParen)
  {
    hide FlatSuffix, FlatSuffixes, GoodSuffix, Spells;
    SuffixesText(ss);
    SpellsBoth(toks, at, FlatSuffix(ss[0]), FlatSuffixes(ss[1..]));
    SuffixFirst(ss[0]);
    SpellsFirst(toks, at, FlatSuffix(ss[0]));
  }

  lemma BoundsHere(toks: seq<Tok>, at: nat, s: Suffix, ts: iset<string>)
    requires SuffixAt(toks, at, s, ts) && s.Bounds?
    ensures TokAt(toks, at) == Plain(LBracket)
    ensures if s.size.None? then TokAt(toks, at + 1) == Plain(RBracket) && |FlatSuffix(s)| == 2
            else && TokAt(toks, at + 1) != Plain(RBracket) && ExprAt(toks, at + 1, s.size.value, ts, 0)
                 && TokAt(toks, at + 1 + |FlatExpr(s.size.value)|) == Plain(RBracket)
                 && |FlatSuffix(s)| == 2 + |FlatExpr(s.size.value)|
  {
    hide FlatExpr, GoodExpr, ExprAt;
    match s.size
    case None =>
      SpellsToken(toks, at, LBracket, Ts(RBracket));
      SpellsToken(toks, at + 1, RBracket, []);
    case Some(e) =>
      assert GoodOption(s.size, G.Expression, ts) && FlatSuffix(s) == Ts(LBracket) + (FlatExpr(e) + Ts(RBracket));
      InBrackets(toks, at, e, ts);
  }

  /** `[ e ]` */
  lemma InBrackets(toks: seq<Tok>, at: nat, e: Expr, ts: iset<string>)
    requires Spells(toks, at, Ts(LBracket) + (FlatExpr(e) + Ts(RBracket))) && GoodExpr(e, ts)
    ensures TokAt(toks, at) == Plain(LBracket) && TokAt(toks, at + 1) != Plain(RBracket)
    ensures ExprAt(toks, at + 1, e, ts, 0) && TokAt(toks, at + 1 + |FlatExpr(e)|) == Plain(RBracket)
    ensures |Ts(LBracket) + (FlatExpr(e) + Ts(RBracket))| == |FlatExpr(e)| + 2
  {
    hide FlatExpr, GoodExpr, StartsExpr, Power, Tight, Tail, ExprAt, Spells;
    SpellsToken(toks, at, LBracket, FlatExpr(e) + Ts(RBracket));
    SpellsBoth(toks, at + 1, FlatExpr(e), Ts(RBracket));
    SpellsToken(toks, at + 1 + |FlatExpr(e)|, RBracket, []);
    ClosingPowers();
    TailAbove(e, ts);
    ExprBefore(toks, at + 1, e, ts, 0);
    SpineStarts(toks, at + 1, e, ts, 0);
    StartsNeither(TokAt(toks, at + 1), ts);
  }

  ghost predicate ParamsAt(toks: seq<Tok>, at: nat, ps: seq<Param>, ellipsis: bool, ts: iset<string>) {
    && Spells(toks, at, FlatParams(ps, ellipsis)) && TokAt(toks, at + |FlatParams(ps, ellipsis)|) == Plain(RParen)
    && (ellipsis ==> ps != []) && forall i :: 0 <= i < |ps| ==> GoodParam(ps[i], ts)
  }

  ghost predicate ParamAt(toks: seq<Tok>, at: nat, p: Param, ts: iset<string>) {
    var t := TokAt(toks, at + |FlatParam(p)|);
    Spells(toks, at, FlatParam(p)) && GoodParam(p, ts) && (t == Plain(Comma) || t == Plain(RParen))
  }

  lemma ParamsHere(toks: seq<Tok>, at: nat, s: Suffix, ts: iset<string>)
    requires SuffixAt(toks, at, s, ts) && s.Params?
    ensures TokAt(toks, at) == Plain(LParen) && ParamsAt(toks, at + 1, s.ps, s.ellipsis, ts)
    ensures |FlatSuffix(s)| == 2 + |FlatParams(s.ps, s.ellipsis)|
  {
    hide FlatParams, GoodParam;
    SpellsToken(toks, at, LParen, FlatParams(s.ps, s.ellipsis) + Ts(RParen));
    SpellsBoth(toks, at + 1, FlatParams(s.ps, s.ellipsis), Ts(RParen));
    SpellsToken(toks, at + 1 + |FlatParams(s.ps, s.ellipsis)|, RParen, []);
  }

  lemma ParamsDone(toks: seq<Tok>, at: nat, ps: seq<Param>, ellipsis: bool, ts: iset<string>)
    requires ParamsAt(toks, at, ps, ellipsis, ts) && ps == []
    ensures TokAt(toks, at) == Plain(RParen) && FlatParams(ps, ellipsis) == []
  {
  }

  lemma ParamsText(ps: seq<Param>, ellipsis: bool)
    requires ps != []
    ensures FlatParams(ps, ellipsis) ==
            FlatParam(ps[0]) + if |ps| > 1 then Ts(Comma) + FlatParams(ps[1..], ellipsis)
                               else if ellipsis then Ts(Comma) + Ks(Ellipsis) else []
  {
    hide FlatParam;
  }

  lemma ParamsStep(toks: seq<Tok>, at: nat, ps: seq<Param>, ellipsis: bool, ts: iset<string>)
    requires ParamsAt(toks, at, ps, ellipsis, ts) && ps != []
    ensures ParamAt(toks, at, ps[0], ts) && TokAt(toks, at) != Plain(RParen) && TokAt(toks, at) != Key(Ellipsis)
    ensures var next, size := at + |FlatParam(ps[0])|, |FlatParams(ps, ellipsis)|;
            if |ps| > 1 then
              && TokAt(toks, next) == Plain(Comma) && ParamsAt(toks, next + 1, ps[1..], ellipsis, ts)
              && size == |FlatParam(ps[0])| + 1 + |FlatParams(ps[1..], ellipsis)|
            else if ellipsis then
              && TokAt(toks, next) == Plain(Comma) && TokAt(toks, next + 1) == Key(Ellipsis)
              && TokAt(toks, next + 2) == Plain(RParen) && size == |FlatParam(ps[0])| + 2
            else TokAt(toks, next) == Plain(RParen) && size == |FlatParam(ps[0])|
  {
    hide FlatParam, FlatParams, GoodParam, Spells, StartsDeclaration;
    var p := ps[0];
    ParamsText(ps, ellipsis);
    SpellsBoth(toks, at, FlatParam(p), if |ps| > 1 then Ts(Comma) + FlatParams(ps[1..], ellipsis)
                                       else if ellipsis then Ts(Comma) + Ks(Ellipsis) else []);
    if |ps| > 1 {
      SpellsToken(toks, at + |FlatParam(p)|, Comma, FlatParams(ps[1..], ellipsis));
    } else if ellipsis {
      SpellsToken(toks, at + |FlatParam(p)|, Comma, Ks(Ellipsis));
      SpellsKey(toks, at + |FlatParam(p)| + 1, Ellipsis, []);
    }
    ParamBegins(toks, at, p, ts);
  }

  lemma ParamBegins(toks: seq<Tok>, at: nat, p: Param, ts: iset<string>)
    requires Spells(toks, at, FlatParam(p)) && GoodParam(p, ts)
    ensures TokAt(toks, at) != Plain(RParen) && TokAt(toks, at) != Key(Ellipsis)
  {
    hide FlatParam, GoodParam, StartsDeclaration;
    ParamFirst(p, ts);
    SpellsFirst(toks, at, FlatParam(p));
    StartsNeither(FlatParam(p)[0], ts);
  }

  lemma ParamFirst(p: Param, ts: iset<string>)
    requires GoodParam(p, ts)
    ensures FlatParam(p) != [] && StartsDeclaration(FlatParam(p)[0], ts)
  {
    hide GoodSpecs, FlatSpecs, StartsDeclaration, GoodDeclarator, FlatDeclarator;
    SpecsFirst(p.specs, ts);
  }

  /** Specifiers before a declarator, and the declarator. */
  lemma SpecsDeclarator(toks: seq<Tok>, at: nat, specs: seq<Spec>, d: Declarator, ts: iset<string>)
    requires Spells(toks, at, FlatSpecs(specs) + FlatDeclarator(d)) && GoodSpecs(specs, ts)
    requires GoodDeclarator(d, AfterSpecs(specs, ts)) && NameClear(specs, AfterSpecs(specs, ts), d)
    requires var t := TokAt(toks, at + |FlatSpecs(specs) + FlatDeclarator(d)|);
             t == Plain(Comma) || t == Plain(RParen) || t == Plain(Semicolon) || t == Plain(Token.Assign) || t == Plain(LBrace)
    requires d == Declarator([], NoName, []) ==> TokAt(toks, at + |FlatSpecs(specs) + FlatDeclarator(d)|) != Plain(LBrace)
    ensures SpecsAt(toks, at, specs, ts) && DeclaratorAt(toks, at + |FlatSpecs(specs)|, d, AfterSpecs(specs, ts))
  {
    hide GoodSpecs, FlatSpecs, GoodDeclarator, FlatDeclarator, AfterSpecs, Settled;
    var next := at + |FlatSpecs(specs)|;
    SpellsBoth(toks, at, FlatSpecs(specs), FlatDeclarator(d));
    DeclaratorFirst(d, AfterSpecs(specs, ts));
    SpellsFirst(toks, next, FlatDeclarator(d));
  }

  lemma ParamParts(toks: seq<Tok>, at: nat, p: Param, ts: iset<string>)
    requires ParamAt(toks, at, p, ts)
    ensures SpecsAt(toks, at, p.specs, ts) && AfterSpecs(p.specs, ts) == ts
    ensures DeclaratorAt(toks, at + |FlatSpecs(p.specs)|, p.d, ts)
    ensures |FlatParam(p)| == |FlatSpecs(p.specs)| + |FlatDeclarator(p.d)|
  {
    hide GoodSpecs, FlatSpecs, GoodDeclarator, FlatDeclarator, AfterSpecs, NameClear, SpecsAt, DeclaratorAt;
    SpecsDeclarator(toks, at, p.specs, p.d, ts);
  }

  lemma TypeParts(toks: seq<Tok>, at: nat, ty: CType, ts: iset<string>)
    requires TypeAt(toks, at, ty, ts)
    ensures SpecsAt(toks, at, ty.specs, ts) && AfterSpecs(ty.specs, ts) == ts
    ensures DeclaratorAt(toks, at + |FlatSpecs(ty.specs)|, ty.d, ts)
    ensures |FlatType(ty)| == |FlatSpecs(ty.specs)| + |FlatDeclarator(ty.d)|
  {
    hide GoodSpecs, FlatSpecs, GoodDeclarator, FlatDeclarator, AfterSpecs, SpecsAt, DeclaratorAt, GoodType;
    TypeSpecs(ty, ts);
    assert NameClear(ty.specs, ts, ty.d) by { NoNameClear(ty.specs, ts, ty.d); }
    SpecsDeclarator(toks, at, ty.specs, ty.d, ts);
  }

  lemma NoNameClear(specs: seq<Spec>, ts: iset<string>, d: Declarator)
    requires Declared(d).None?
    ensures NameClear(specs, ts, d)
  {
  }

  lemma ClosingPowers()
    ensures Power(Plain(RParen)) == Power(Plain(RBracket)) == Power(Plain(RBrace)) == 0
    ensures Power(Plain(Colon)) == Power(Plain(Semicolon)) == 0
  {
    Closers();
  }

  // ----- initializers -----

  ghost predicate InitAt(toks: seq<Tok>, at: nat, i: Init, ts: iset<string>) {
    var t := TokAt(toks, at + |FlatInit(i)|);
    Spells(toks, at, FlatInit(i)) && GoodInit(i, ts) && (t == Plain(Comma) || t == Plain(Semicolon) || t == Plain(RBrace))
  }

  ghost predicate ItemsAt(toks: seq<Tok>, at: nat, xs: seq<Item>, trailing: bool, ts: iset<string>) {
    && Spells(toks, at, FlatItems(xs, trailing)) && TokAt(toks, at + |FlatItems(xs, trailing)|) == Plain(RBrace)
    && forall i :: 0 <= i < |xs| ==> GoodItem(xs[i], ts)
  }

  ghost predicate ItemAt(toks: seq<Tok>, at: nat, x: Item, ts: iset<string>) {
    var t := TokAt(toks, at + |FlatItem(x)|);
    Spells(toks, at, FlatItem(x)) && GoodItem(x, ts) && (t == Plain(Comma) || t == Plain(RBrace))
  }

  /** An initializer in braces begins with one, and no other does. */
  lemma InitHere(toks: seq<Tok>, at: nat, i: Init, ts: iset<string>)
    requires InitAt(toks, at, i, ts)
    ensures at < |toks|
    ensures match i
            case Value(e) =>
              && ExprAt(toks, at, e, ts, 20) && FlatInit(i) == FlatExpr(e) && TokAt(toks, at) != Plain(LBrace)
              && TokAt(toks, at) != Plain(Dot) && TokAt(toks, at) != Plain(LBracket) && TokAt(toks, at) != Plain(RBrace)
            case List(b) =>
              BracesAt(toks, at, b, ts) && FlatInit(i) == FlatBraces(b) && TokAt(toks, at) == Plain(LBrace)
  {
    hide FlatExpr, GoodExpr, GoodBraces, FlatItems, StartsExpr, Tight, ExprAt;
    match i
    case Value(e) =>
      ConditionalAt(toks, at, e, ts, 20);
      SpineStarts(toks, at, e, ts, 20);
      StartsNeither(TokAt(toks, at), ts);
    case List(b) => SpellsToken(toks, at, LBrace, FlatItems(b.items, b.trailing) + Ts(RBrace));
  }

  lemma BracesHere(toks: seq<Tok>, at: nat, b: Braces, ts: iset<string>)
    requires BracesAt(toks, at, b, ts)
    ensures TokAt(toks, at) == Plain(LBrace) && ItemsAt(toks, at + 1, b.items, b.trailing, ts)
    ensures |FlatBraces(b)| == 2 + |FlatItems(b.items, b.trailing)| && (b.trailing ==> b.items != [])
  {
    hide FlatItems, GoodItem;
    BracedHere(toks, at, FlatItems(b.items, b.trailing));
  }

  lemma ItemsDone(toks: seq<Tok>, at: nat, xs: seq<Item>, trailing: bool, ts: iset<string>)
    requires ItemsAt(toks, at, xs, trailing, ts) && xs == []
    ensures TokAt(toks, at) == Plain(RBrace) && FlatItems(xs, trailing) == []
  {
  }

  lemma ItemsText(xs: seq<Item>, trailing: bool)
    requires xs != []
    ensures FlatItems(xs, trailing) ==
            FlatItem(xs[0])
            + if |xs| > 1 then Ts(Comma) + FlatItems(xs[1..], trailing) else if trailing then Ts(Comma) else []
  {
    hide FlatItem;
  }

  lemma NoItems(trailing: bool)
    ensures FlatItems([], trailing) == []
  {
  }

  lemma ItemsStep(toks: seq<Tok>, at: nat, xs: seq<Item>, trailing: bool, ts: iset<string>)
    requires ItemsAt(toks, at, xs, trailing, ts) && xs != []
    ensures ItemAt(toks, at, xs[0], ts) && TokAt(toks, at) != Plain(RBrace) && at < |toks|
    ensures var next, size := at + |FlatItem(xs[0])|, |FlatItems(xs, trailing)|;
            if |xs| == 1 && !trailing then TokAt(toks, next) == Plain(RBrace) && size == |FlatItem(xs[0])|
            else && TokAt(toks, next) == Plain(Comma) && ItemsAt(toks, next + 1, xs[1..], trailing, ts)
                 && size == |FlatItem(xs[0])| + 1 + |FlatItems(xs[1..], trailing)|
  {
    hide FlatItem, FlatItems, GoodItem, Spells;
    var x := xs[0];
    ItemsText(xs, trailing);
    SpellsBoth(toks, at, FlatItem(x),
               if |xs| > 1 then Ts(Comma) + FlatItems(xs[1..], trailing) else if trailing then Ts(Comma) else []);
    if |xs| > 1 || trailing {
      NoItems(trailing);
      assert |xs| == 1 ==> xs[1..] == [];
      SpellsToken(toks, at + |FlatItem(x)|, Comma, FlatItems(xs[1..], trailing));
      SpellsEmpty(toks, at + |FlatItem(x)| + 1);
    }
    ItemParts(toks, at, x, ts);
  }

  /** An item: its designator if it has one, and its initializer. */
  lemma ItemParts(toks: seq<Tok>, at: nat, x: Item, ts: iset<string>)
    requires ItemAt(toks, at, x, ts)
    ensures at < |toks| && TokAt(toks, at) != Plain(RBrace)
    ensures match x.at
            case None =>
              && InitAt(toks, at, x.init, ts) && FlatItem(x) == FlatInit(x.init)
              && TokAt(toks, at) != Plain(Dot) && TokAt(toks, at) != Plain(LBracket)
            case Some(Place(i)) =>
              var next := at + 1 + |FlatExpr(i)|;
              && TokAt(toks, at) == Plain(LBracket) && ExprAt(toks, at + 1, i, ts, 0)
              && TokAt(toks, next) == Plain(RBracket) && TokAt(toks, next + 1) == Plain(Token.Assign)
              && InitAt(toks, next + 2, x.init, ts) && |FlatItem(x)| == 3 + |FlatExpr(i)| + |FlatInit(x.init)|
            case Some(FieldNamed(n)) =>
              && TokAt(toks, at) == Plain(Dot) && TokAt(toks, at + 1) == Plain(Ident(n))
              && TokAt(toks, at + 2) == Plain(Token.Assign) && InitAt(toks, at + 3, x.init, ts)
              && |FlatItem(x)| == 3 + |FlatInit(x.init)|
  {
    hide FlatExpr, GoodExpr, FlatInit, GoodInit, Tight, ExprAt, Spells;
    match x.at
    case None => InitHere(toks, at, x.init, ts);
    case Some(Place(i)) => PlaceParts(toks, at, i, FlatInit(x.init), ts);
    case Some(FieldNamed(n)) =>
      SpellsToken(toks, at, Dot, Ts(Ident(n)) + (Ts(Token.Assign) + FlatInit(x.init)));
      SpellsToken(toks, at + 1, Ident(n), Ts(Token.Assign) + FlatInit(x.init));
      SpellsToken(toks, at + 2, Token.Assign, FlatInit(x.init));
  }

  lemma PlaceParts(toks: seq<Tok>, at: nat, i: Expr, rest: seq<Tok>, ts: iset<string>)
    requires Spells(toks, at, Ts(LBracket) + (FlatExpr(i) + (Ts(RBracket) + (Ts(Token.Assign) + rest)))) && GoodExpr(i, ts)
    ensures var next := at + 1 + |FlatExpr(i)|;
            && TokAt(toks, at) == Plain(LBracket) && ExprAt(toks, at + 1, i, ts, 0)
            && TokAt(toks, next) == Plain(RBracket) && TokAt(toks, next + 1) == Plain(Token.Assign)
            && Spells(toks, next + 2, rest)
    ensures |Ts(LBracket) + (FlatExpr(i) + (Ts(RBracket) + (Ts(Token.Assign) + rest)))| == 3 + |FlatExpr(i)| + |rest|
  {
    hide FlatExpr, GoodExpr, Tight, ExprAt, Spells, Power;
    SpellsToken(toks, at, LBracket, FlatExpr(i) + (Ts(RBracket) + (Ts(Token.Assign) + rest)));
    SpellsBoth(toks, at + 1, FlatExpr(i), Ts(RBracket) + (Ts(Token.Assign) + rest));
    SpellsToken(toks, at + 1 + |FlatExpr(i)|, RBracket, Ts(Token.Assign) + rest);
    SpellsToken(toks, at + 2 + |FlatExpr(i)|, Token.Assign, rest);
    ClosingPowers();
    TailAbove(i, ts);
    ExprBefore(toks, at + 1, i, ts, 0);
  }

  // ----- declarations -----

  ghost predicate DeclarationAt(toks: seq<Tok>, at: nat, d: Declaration, ts: iset<string>) {
    Spells(toks, at, FlatDeclaration(d)) && GoodDeclaration(d, ts)
  }

  ghost predicate InitsAt(toks: seq<Tok>, at: nat, ds: seq<InitDeclarator>, typedef: bool, ts: iset<string>) {
    && Spells(toks, at, FlatInits(ds)) && GoodInits(ds, typedef, ts)
    && TokAt(toks, at + |FlatInits(ds)|) == Plain(Semicolon)
  }

  ghost predicate InitDeclaratorAt(toks: seq<Tok>, at: nat, x: InitDeclarator, typedef: bool, ts: iset<string>) {
    var t := TokAt(toks, at + |FlatInitDeclarator(x)|);
    && Spells(toks, at, FlatInitDeclarator(x)) && GoodInitDeclarator(x, typedef, ts)
    && (t == Plain(Comma) || t == Plain(Semicolon))
  }

  lemma DeclarationParts(toks: seq<Tok>, at: nat, d: Declaration, ts: iset<string>)
    requires DeclarationAt(toks, at, d, ts)
    ensures at < |toks| && StartsDeclaration(TokAt(toks, at), ts) && SpecsAt(toks, at, d.specs, ts)
    ensures InitsAt(toks, at + |FlatSpecs(d.specs)|, d.ds, IsTypedef(d.specs), AfterSpecs(d.specs, ts))
    ensures |FlatDeclaration(d)| == |FlatSpecs(d.specs)| + |FlatInits(d.ds)| + 1
    ensures AfterDeclaration(d, ts) == AfterInits(d.ds, IsTypedef(d.specs), AfterSpecs(d.specs, ts))
  {
    hide GoodSpecs, FlatSpecs, GoodInits, FlatInits, AfterSpecs, Settled, NameClear, IsTypedef, StartsDeclaration,
         Spells, AfterInits;
    var next, ts1 := at + |FlatSpecs(d.specs)|, AfterSpecs(d.specs, ts);
    SpellsBoth(toks, at, FlatSpecs(d.specs), FlatInits(d.ds) + Ts(Semicolon));
    SpellsBoth(toks, next, FlatInits(d.ds), Ts(Semicolon));
    SpellsToken(toks, next + |FlatInits(d.ds)|, Semicolon, []);
    SpecsFirst(d.specs, ts);
    SpellsFirst(toks, at, FlatSpecs(d.specs));
    if d.ds != [] {
      InitsFirst(d.specs, d.ds, IsTypedef(d.specs), ts1);
      SpellsFirst(toks, next, FlatInits(d.ds));
    } else {
      NoInits();
    }
  }

  lemma NoInits()
    ensures FlatInits([]) == []
  {
  }

  lemma InitsText(ds: seq<InitDeclarator>, typedef: bool, ts: iset<string>)
    requires ds != []
    ensures FlatInits(ds) == FlatInitDeclarator(ds[0]) + if |ds| == 1 then [] else Ts(Comma) + FlatInits(ds[1..])
    ensures GoodInits(ds, typedef, ts) ==>
              GoodInitDeclarator(ds[0], typedef, ts) && GoodInits(ds[1..], typedef, AfterName(ds[0].d, typedef, ts))
    ensures AfterInits(ds, typedef, ts) == AfterInits(ds[1..], typedef, AfterName(ds[0].d, typedef, ts))
  {
    hide FlatInitDeclarator, GoodInitDeclarator, AfterName;
  }

  lemma InitsFirst(specs: seq<Spec>, ds: seq<InitDeclarator>, typedef: bool, ts: iset<string>)
    requires ds != [] && GoodInits(ds, typedef, ts) && NameClear(specs, ts, ds[0].d)
    ensures FlatInits(ds) != [] && SpecsEnd(specs, ts, FlatInits(ds)[0])
  {
    hide FlatInits, GoodInits, FlatDeclarator, GoodDeclarator, FlatInit, GoodInit, Settled;
    InitsText(ds, typedef, ts);
    DeclaratorFirst(ds[0].d, ts);
  }

  lemma InitsStep(toks: seq<Tok>, at: nat, ds: seq<InitDeclarator>, typedef: bool, ts: iset<string>)
    requires InitsAt(toks, at, ds, typedef, ts) && ds != []
    ensures InitDeclaratorAt(toks, at, ds[0], typedef, ts) && TokAt(toks, at) != Plain(Semicolon)
    ensures var next := at + |FlatInitDeclarator(ds[0])|;
            if |ds| == 1 then TokAt(toks, next) == Plain(Semicolon) && |FlatInits(ds)| == |FlatInitDeclarator(ds[0])|
            else && TokAt(toks, next) == Plain(Comma)
                 && InitsAt(toks, next + 1, ds[1..], typedef, AfterName(ds[0].d, typedef, ts))
                 && |FlatInits(ds)| == |FlatInitDeclarator(ds[0])| + 1 + |FlatInits(ds[1..])|
    ensures AfterInits(ds, typedef, ts) == AfterInits(ds[1..], typedef, AfterName(ds[0].d, typedef, ts))
  {
    hide FlatInitDeclarator, FlatInits, GoodInits, GoodInitDeclarator, AfterInits, AfterName, Spells;
    InitsText(ds, typedef, ts);
    SpellsBoth(toks, at, FlatInitDeclarator(ds[0]), if |ds| == 1 then [] else Ts(Comma) + FlatInits(ds[1..]));
    if |ds| > 1 {
      SpellsToken(toks, at + |FlatInitDeclarator(ds[0])|, Comma, FlatInits(ds[1..]));
    }
    InitDeclaratorBegins(toks, at, ds[0], typedef, ts);
  }

  lemma InitDeclaratorBegins(toks: seq<Tok>, at: nat, x: InitDeclarator, typedef: bool, ts: iset<string>)
    requires Spells(toks, at, FlatInitDeclarator(x)) && GoodInitDeclarator(x, typedef, ts)
    ensures TokAt(toks, at) != Plain(Semicolon)
  {
    hide FlatDeclarator, GoodDeclarator, FlatInit, GoodInit;
    DeclaratorFirst(x.d, ts);
    SpellsFirst(toks, at, FlatInitDeclarator(x));
  }

  lemma InitDeclaratorParts(toks: seq<Tok>, at: nat, x: InitDeclarator, typedef: bool, ts: iset<string>)
    requires InitDeclaratorAt(toks, at, x, typedef, ts)
    ensures DeclaratorAt(toks, at, x.d, ts) && Declared(x.d).Some?
    ensures var next := at + |FlatDeclarator(x.d)|;
            if x.init.None? then
              && |FlatInitDeclarator(x)| == |FlatDeclarator(x.d)| && TokAt(toks, next) != Plain(Token.Assign)
              && TokAt(toks, next) != Plain(LBrace)
            else && !typedef && TokAt(toks, next) == Plain(Token.Assign) && InitAt(toks, next + 1, x.init.value, ts)
                 && |FlatInitDeclarator(x)| == |FlatDeclarator(x.d)| + 1 + |FlatInit(x.init.value)|
  {
    hide FlatDeclarator, GoodDeclarator, FlatInit, GoodInit, Spells;
    var more := if x.init.Some? then Ts(Token.Assign) + FlatInit(x.init.value) else [];
    SpellsBoth(toks, at, FlatDeclarator(x.d), more);
    if x.init.Some? {
      SpellsToken(toks, at + |FlatDeclarator(x.d)|, Token.Assign, FlatInit(x.init.value));
    }
  }

  lemma InitsDone(toks: seq<Tok>, at: nat, ds: seq<InitDeclarator>, typedef: bool, ts: iset<string>)
    requires InitsAt(toks, at, ds, typedef, ts) && ds == []
    ensures TokAt(toks, at) == Plain(Semicolon) && FlatInits(ds) == [] && AfterInits(ds, typedef, ts) == ts
  {
  }
}
