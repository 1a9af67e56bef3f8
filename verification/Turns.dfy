/** One turn of each loop over the text of a list, and the ends of the lists. */
module Turns {
  import opened Wrappers
  import opened Pratt
  import opened Syntax
  import opened Spine
  import opened FirstTokens
  import opened Places
  import opened DeclPlaces
  import opened StmtPlaces
  import opened Names

  lemma FieldsTurn(toks: seq<Tok>, at: nat, fs: seq<FieldDecl>, ts: iset<string>)
    requires FieldsAt(toks, at, fs, ts)
    ensures fs == [] <==> TokAt(toks, at) == Plain(Semicolon)
    ensures fs == [] ==> |FlatFields(fs)| == 0
    ensures fs != [] ==>
              var next := at + |FlatField(fs[0])|;
              && FieldAt(toks, at, fs[0], ts)
              && (if |fs| == 1 then TokAt(toks, next) == Plain(Semicolon) && next == at + |FlatFields(fs)|
                  else && TokAt(toks, next) == Plain(Comma) && FieldsAt(toks, next + 1, fs[1..], ts)
                       && next + 1 + |FlatFields(fs[1..])| == at + |FlatFields(fs)|)
  {
    hide FieldsAt, FlatFields, FieldAt, FlatField;
    if fs == [] {
      FieldsDone(toks, at, fs, ts);
    } else {
      FieldsStep(toks, at, fs, ts);
    }
  }

  lemma FieldsDone(toks: seq<Tok>, at: nat, fs: seq<FieldDecl>, ts: iset<string>)
    requires FieldsAt(toks, at, fs, ts) && fs == []
    ensures TokAt(toks, at) == Plain(Semicolon) && FlatFields(fs) == []
  {
  }

  lemma EnumeratorsClose(toks: seq<Tok>, at: nat, es: seq<Enumerator>, trailing: bool, ts: iset<string>)
    requires EnumeratorsAt(toks, at, es, trailing, ts)
    ensures TokAt(toks, at + |FlatEnumerators(es, trailing)|) == Plain(RBrace)
  {
  }

  lemma NoMoreNames(es: seq<Enumerator>, ts: iset<string>)
    ensures |es| == 1 ==> AfterEnums(es[1..], ts) == ts
  {
  }

  lemma SuffixesTurn(toks: seq<Tok>, at: nat, ss: seq<Suffix>, i: nat, ts: iset<string>)
    requires i <= |ss| && SuffixesAt(toks, at, ss[i..], ts)
    ensures i == |ss| ==> DeclaratorEnd(TokAt(toks, at)) && |FlatSuffixes(ss[i..])| == 0
    ensures i < |ss| ==>
              && SuffixAt(toks, at, ss[i], ts) && SuffixesAt(toks, at + |FlatSuffix(ss[i])|, ss[i + 1..], ts)
              && |FlatSuffixes(ss[i..])| == |FlatSuffix(ss[i])| + |FlatSuffixes(ss[i + 1..])|
              && TokAt(toks, at) == if ss[i].Bounds? then Plain(LBracket) else Plain(LParen)
  {
    hide SuffixesAt, FlatSuffixes, SuffixAt, FlatSuffix;
    if i == |ss| {
      SuffixesDone(toks, at, ss[i..], ts);
    } else {
      SuffixesStep(toks, at, ss[i..], ts);
      assert ss[i..][0] == ss[i] && ss[i..][1..] == ss[i + 1..];
    }
  }

  lemma ParamsClose(toks: seq<Tok>, at: nat, ps: seq<Param>, ellipsis: bool, ts: iset<string>)
    requires ParamsAt(toks, at, ps, ellipsis, ts)
    ensures TokAt(toks, at + |FlatParams(ps, ellipsis)|) == Plain(RParen)
  {
  }

  lemma ParamsFirst(toks: seq<Tok>, at: nat, ps: seq<Param>, ellipsis: bool, ts: iset<string>)
    requires ParamsAt(toks, at, ps, ellipsis, ts)
    ensures ps == [] <==> TokAt(toks, at) == Plain(RParen)
    ensures ps == [] ==> |FlatParams(ps, ellipsis)| == 0
    ensures ParamNames(ps[..0]) == [] && ParamsGo(toks, at, ps, ellipsis, 0, at + |FlatParams(ps, ellipsis)|, ts)
  {
    hide ParamsAt, FlatParams, ParamAt, FlatParam;
    assert ps[0..] == ps;
    if ps == [] {
      ParamsDone(toks, at, ps, ellipsis, ts);
    } else {
      ParamsStep(toks, at, ps, ellipsis, ts);
    }
  }

  /** The loop over parameters is at the i-th, or at the ellipsis after the last. */
  ghost predicate ParamsGo(toks: seq<Tok>, at: nat, ps: seq<Param>, ellipsis: bool, i: int, end: nat, ts: iset<string>) {
    && 0 <= i <= |ps|
    && (i < |ps| || ps == [] ==> ParamsAt(toks, at, ps[i..], ellipsis, ts) && at + |FlatParams(ps[i..], ellipsis)| == end)
    && (i == |ps| && ps != [] ==> ellipsis && TokAt(toks, at) == Key(Ellipsis) && at + 1 == end)
  }

  lemma ParamsTurn(toks: seq<Tok>, at: nat, ps: seq<Param>, ellipsis: bool, i: int, end: nat, ts: iset<string>)
    requires ParamsGo(toks, at, ps, ellipsis, i, end, ts) && ps != []
    ensures 0 <= i <= |ps| && (i == |ps| <==> TokAt(toks, at) == Key(Ellipsis)) && (i == |ps| ==> at + 1 == end)
    ensures i < |ps| ==>
              var next := at + |FlatParam(ps[i])|;
              && ParamAt(toks, at, ps[i], ts)
              && ParamNames(ps[..i + 1]) == ParamNames(ps[..i]) + [Declared(ps[i].d)]
              && (if TokAt(toks, next) == Plain(Comma) then ParamsGo(toks, next + 1, ps, ellipsis, i + 1, end, ts)
                  else i + 1 == |ps| && next == end)
  {
    hide ParamsAt, FlatParams, ParamAt, FlatParam, Declared;
    if i < |ps| {
      ParamsStep(toks, at, ps[i..], ellipsis, ts);
      assert ps[i..][0] == ps[i] && ps[i..][1..] == ps[i + 1..];
      assert ps[..i + 1][..i] == ps[..i];
    }
  }

  lemma StarsTurn(toks: seq<Tok>, at: nat, stars: seq<seq<Word>>, n: nat)
    requires n <= |stars| && StarsAt(toks, at, stars[n..])
    ensures n == |stars| ==> StarsEnd(TokAt(toks, at)) && |FlatStars(stars[n..])| == 0
    ensures n < |stars| ==>
              && TokAt(toks, at) == Plain(Star) && WordsAt(toks, at + 1, stars[n])
              && StarsAt(toks, at + 1 + |FlatWords(stars[n])|, stars[n + 1..])
              && |FlatStars(stars[n..])| == 1 + |FlatWords(stars[n])| + |FlatStars(stars[n + 1..])|
  {
    hide StarsAt, FlatStars, WordsAt, FlatWords;
    if n == |stars| {
      StarsDone(toks, at, stars[n..]);
    } else {
      StarsStep(toks, at, stars[n..]);
      assert stars[n..][0] == stars[n] && stars[n..][1..] == stars[n + 1..];
    }
  }

  function DesignatorSize(x: Item): nat {
    match x.at
    case None => 0
    case Some(Place(i)) => 3 + |FlatExpr(i)|
    case Some(FieldNamed(_)) => 3
  }

  lemma ItemInit(toks: seq<Tok>, at: nat, x: Item, ts: iset<string>)
    requires ItemAt(toks, at, x, ts)
    ensures InitAt(toks, at + DesignatorSize(x), x.init, ts) && |FlatItem(x)| == DesignatorSize(x) + |FlatInit(x.init)|
  {
    hide ItemAt, FlatItem, InitAt, FlatInit, FlatExpr, ExprAt;
    ItemParts(toks, at, x, ts);
  }

  lemma ItemsClose(toks: seq<Tok>, at: nat, xs: seq<Item>, trailing: bool, ts: iset<string>)
    requires ItemsAt(toks, at, xs, trailing, ts)
    ensures TokAt(toks, at + |FlatItems(xs, trailing)|) == Plain(RBrace)
  {
  }

  lemma ItemsTurn(toks: seq<Tok>, at: nat, xs: seq<Item>, trailing: bool, ts: iset<string>)
    requires ItemsAt(toks, at, xs, trailing, ts)
    ensures xs == [] <==> TokAt(toks, at) == Plain(RBrace)
    ensures xs == [] ==> |FlatItems(xs, trailing)| == 0
    ensures xs != [] ==>
              var next, size := at + |FlatItem(xs[0])|, |FlatItems(xs, trailing)|;
              && ItemAt(toks, at, xs[0], ts) && at < |toks|
              && (if |xs| == 1 && !trailing then TokAt(toks, next) == Plain(RBrace) && size == |FlatItem(xs[0])|
                  else && TokAt(toks, next) == Plain(Comma) && ItemsAt(toks, next + 1, xs[1..], trailing, ts)
                       && size == |FlatItem(xs[0])| + 1 + |FlatItems(xs[1..], trailing)|)
  {
    hide ItemsAt, FlatItems, ItemAt, FlatItem;
    if xs == [] {
      ItemsDone(toks, at, xs, trailing, ts);
    } else {
      ItemsStep(toks, at, xs, trailing, ts);
    }
  }

  /** What the first token of a declarator's core says. */
  lemma CoreKnown(toks: seq<Tok>, at: nat, d: Declarator, ts: iset<string>)
    requires CoreAt(toks, at, d, ts)
    ensures d.core.Grouped? <==> TokAt(toks, at) == Plain(LParen)
    ensures d.core.NameOf? <==> IsName(TokAt(toks, at))
    ensures d.core.NameOf? ==> TokAt(toks, at) == Plain(Ident(d.core.x)) && Declared(d) == Some(d.core.x)
    ensures d.core.NoName? ==> Declared(d) == None
    ensures (d.core.NameOf? ==> CoreSize(d.core) == 1) && (d.core.NoName? ==> CoreSize(d.core) == 0)
    ensures !d.core.Grouped? ==> SuffixesAt(toks, at + CoreSize(d.core), d.suffixes, ts)
  {
    hide SuffixesAt, FlatSuffixes, FlatDeclarator, DeclaratorAt;
  }

  lemma CoreClose(toks: seq<Tok>, at: nat, d: Declarator, ts: iset<string>)
    requires CoreAt(toks, at, d, ts)
    ensures !IsAttribute(TokAt(toks, at + CoreSize(d.core) + |FlatSuffixes(d.suffixes)|))
  {
    hide SuffixesAt, FlatSuffixes, FlatDeclarator, DeclaratorAt;
    SuffixesClose(toks, at + CoreSize(d.core), d.suffixes, ts);
  }

  lemma SuffixesClose(toks: seq<Tok>, at: nat, ss: seq<Suffix>, ts: iset<string>)
    requires SuffixesAt(toks, at, ss, ts)
    ensures DeclaratorEnd(TokAt(toks, at + |FlatSuffixes(ss)|))
  {
  }

  lemma GroupKnown(toks: seq<Tok>, at: nat, d: Declarator, ts: iset<string>)
    requires CoreAt(toks, at, d, ts) && d.core.Grouped?
    ensures DeclaratorAt(toks, at + 1, d.core.d, ts) && Declared(d) == Declared(d.core.d)
    ensures var close := at + 1 + |FlatDeclarator(d.core.d)|;
            && TokAt(toks, close) == Plain(RParen) && SuffixesAt(toks, close + 1, d.suffixes, ts)
            && DeclaratorEnd(TokAt(toks, close + 1 + |FlatSuffixes(d.suffixes)|))
            && close + 1 == at + CoreSize(d.core)
  {
    hide SuffixesAt, FlatSuffixes, FlatDeclarator, DeclaratorAt;
    SuffixesClose(toks, at + 2 + |FlatDeclarator(d.core.d)|, d.suffixes, ts);
  }

  predicate IsSimple(s: Stmt) {
    s.ExprStmt? || s.ReturnStmt? || s.BreakStmt? || s.ContinueStmt? || s.GotoStmt?
  }

  function SpecsOf(x: External): seq<Spec> {
    match x
    case Declares(d) => d.specs
    case FunctionDef(specs, _, _) => specs
  }

  lemma ExternalParts(toks: seq<Tok>, at: nat, x: External, ts: iset<string>)
    requires ExternalAt(toks, at, x, ts)
    ensures SpecsAt(toks, at, SpecsOf(x), ts)
    ensures var next, ts1 := at + |FlatSpecs(SpecsOf(x))|, AfterSpecs(SpecsOf(x), ts);
            match x
            case Declares(d) =>
              && InitsAt(toks, next, d.ds, IsTypedef(d.specs), ts1) && at + |FlatExternal(x)| == next + |FlatInits(d.ds)| + 1
              && AfterExternal(x, ts) == AfterInits(d.ds, IsTypedef(d.specs), ts1)
            case FunctionDef(specs, d, body) =>
              && !IsTypedef(specs) && FunctionAt(toks, next, x, ts1)
              && at + |FlatExternal(x)| == next + |FlatDeclarator(d)| + |FlatStmt(Block(body))|
              && AfterExternal(x, ts) == AfterName(d, false, ts1)
  {
    hide SpecsAt, FlatSpecs, AfterSpecs, InitsAt, FlatInits, AfterInits, FlatDeclarator, FlatStmt, IsTypedef,
         AfterName, DeclarationAt, FlatDeclaration, AfterDeclaration, DeclaratorAt, StmtAt, HideNames, FunctionParams,
         StartsDeclaration, Declared, ExternalAt, FlatExternal, AfterExternal, TokAt;
    match x
    case Declares(d) => DeclaresDeclaration(toks, at, x, ts); DeclarationParts(toks, at, d, ts);
    case FunctionDef(_, _, _) => FunctionParts(toks, at, x, ts);
  }

  lemma DeclaresDeclaration(toks: seq<Tok>, at: nat, x: External, ts: iset<string>)
    requires ExternalAt(toks, at, x, ts) && x.Declares?
    ensures DeclarationAt(toks, at, x.decl, ts) && FlatExternal(x) == FlatDeclaration(x.decl)
    ensures AfterExternal(x, ts) == AfterDeclaration(x.decl, ts)
  {
    hide FlatDeclaration, GoodDeclaration, AfterDeclaration, Spells;
  }

  lemma FunctionKnown(toks: seq<Tok>, at: nat, x: External, ts: iset<string>)
    requires FunctionAt(toks, at, x, ts)
    ensures x.FunctionDef? && DeclaratorAt(toks, at, x.d, ts) && Declared(x.d).Some? && FunctionParams(x.d).Some?
    ensures TokAt(toks, at) != Plain(Semicolon) && TokAt(toks, at + |FlatDeclarator(x.d)|) == Plain(LBrace)
    ensures StmtAt(toks, at + |FlatDeclarator(x.d)|, Block(x.body), HideNames(FunctionParams(x.d).value, ts), false, false)
  {
  }

  lemma OptionEnd(toks: seq<Tok>, at: nat, e: Option<Expr>, end: Token, ts: iset<string>)
    requires OptionAt(toks, at, e, end, ts)
    ensures TokAt(toks, at + |FlatOption(e)|) == Plain(end)
  {
  }

  lemma InitsClose(toks: seq<Tok>, at: nat, ds: seq<InitDeclarator>, typedef: bool, ts: iset<string>)
    requires InitsAt(toks, at, ds, typedef, ts)
    ensures TokAt(toks, at + |FlatInits(ds)|) == Plain(Semicolon)
  {
  }

  lemma NoMoreInits(ds: seq<InitDeclarator>, typedef: bool, ts: iset<string>)
    ensures |ds| == 1 ==> AfterInits(ds[1..], typedef, ts) == ts
  {
  }

  lemma ExprKeys(t: Tok, ts: iset<string>)
    requires StartsExpr(t, ts)
    ensures t.Key? ==> t.k == Sizeof || t.k == Alignof
  {
  }
}
