/** One translation unit of the grammar, so that what is said of all of them is said of something. */
module Sample {
  import opened Wrappers
  import opened Pratt
  import opened Syntax
  import G = CGrammar

  function One(k: Word): seq<Spec> { [SpecWord(k)] }

  function X(): Expr { Leaf(Ident("x")) }

  /** `int x`, as a parameter. */
  function IntX(): Param { Param(One(KwInt), Declarator([], NameOf("x"), [])) }

  /** `f(int x)` */
  function FOfX(): Declarator { Declarator([], NameOf("f"), [Params([IntX()], false)]) }

  /** `x = n;` */
  function SetX(n: nat): Stmt { ExprStmt(BinaryOp(Token.Assign, X(), Leaf(IntLit(n)))) }

  /** `if (x) x = 1; else x = 2;` */
  function Choose(): Stmt { IfStmt(X(), SetX(1), Some(SetX(2))) }

  /** `void f(int x) { if (x) x = 1; else x = 2; }` */
  function Unit(): seq<External> { [FunctionDef(One(KwVoid), FOfX(), [Choose()])] }

  lemma OneWord(k: Word)
    requires k == KwInt || k == KwVoid
    ensures GoodSpecs(One(k), iset{}) && AfterSpecs(One(k), iset{}) == iset{} && !IsTypedef(One(k))
    ensures FlatSpecs(One(k)) == [Key(k)]
  {
    OneTally(k);
    assert One(k)[1..] == [];
    assert GoodList([], iset{});
  }

  lemma OneTally(k: Word)
    requires k == KwInt || k == KwVoid
    ensures OneType(One(k)) && Storage(One(k)) == []
  {
    assert One(k)[..0] == [];
    assert TypeWords(One(k)) == multiset{k};
  }

  lemma SetXIs(n: nat)
    ensures GoodPart(SetX(n), iset{}, false, false) && !OpenIf(SetX(n))
    ensures FlatStmt(SetX(n)) == [Plain(Ident("x")), Plain(Token.Assign), Plain(IntLit(n)), Plain(Semicolon)]
  {
    assert G.LevelOf(Token.Assign) == G.Assignment;
    assert GoodExpr(X(), iset{}) && GoodExpr(Leaf(IntLit(n)), iset{});
    assert FlatExpr(SetX(n).e) == FlatExpr(X()) + (Ts(Token.Assign) + FlatExpr(Leaf(IntLit(n))));
  }

  lemma ChooseIs()
    ensures GoodStmt(Choose(), iset{}, false, false)
    ensures FlatStmt(Choose()) == [Key(If), Plain(LParen), Plain(Ident("x")), Plain(RParen)]
                                  + FlatStmt(SetX(1)) + [Key(Else)] + FlatStmt(SetX(2))
  {
    hide SetX, OpenIf;
    SetXIs(1);
    SetXIs(2);
    assert GoodExpr(X(), iset{});
    assert FlatCondition(X()) == [Plain(LParen), Plain(Ident("x")), Plain(RParen)];
  }

  lemma FOfXIs()
    ensures GoodDeclarator(FOfX(), iset{}) && HideNames([IntX()], iset{}) == iset{}
    ensures FlatDeclarator(FOfX()) == [Plain(Ident("f")), Plain(LParen), Key(KwInt), Plain(Ident("x")), Plain(RParen)]
  {
    hide GoodSpecs, AfterSpecs, FlatSpecs, One;
    OneWord(KwInt);
    var d := Declarator([], NameOf("x"), []);
    assert GoodDeclarator(d, iset{}) && FlatDeclarator(d) == [Plain(Ident("x"))];
    assert GoodParam(IntX(), iset{}) && FlatParam(IntX()) == [Key(KwInt), Plain(Ident("x"))];
    assert [IntX()][1..] == [] && FOfX().suffixes[1..] == [];
    assert FlatSuffixes(FOfX().suffixes) == FlatSuffix(FOfX().suffixes[0]) + [];
  }

  lemma UnitDerives()
    ensures GoodUnit(Unit(), iset{})
  {
    hide GoodSpecs, AfterSpecs, GoodDeclarator, HideNames, GoodStmt, One, Choose, IsTypedef;
    OneWord(KwVoid);
    FOfXIs();
    ChooseIs();
    var body := [Choose()];
    assert body[1..] == [] && Unit()[1..] == [];
    assert GoodItems(body, iset{}, false, false);
  }

  lemma UnitText()
    ensures FlatUnit(Unit()) ==
            FlatSpecs(One(KwVoid)) + FlatDeclarator(FOfX()) + [Plain(LBrace)] + FlatStmt(Choose()) + [Plain(RBrace)]
  {
    hide FlatSpecs, FlatDeclarator, One, Choose;
    var body := [Choose()];
    assert body[1..] == [] && Unit()[1..] == [];
    assert FlatStmts(body) == FlatStmt(Choose());
  }

  lemma UnitIsGood()
    ensures GoodUnit(Unit(), iset{})
    ensures FlatUnit(Unit()) ==
            [Key(KwVoid)] + [Plain(Ident("f")), Plain(LParen), Key(KwInt), Plain(Ident("x")), Plain(RParen)] + [Plain(LBrace)]
            + ([Key(If), Plain(LParen), Plain(Ident("x")), Plain(RParen)]
               + [Plain(Ident("x")), Plain(Token.Assign), Plain(IntLit(1)), Plain(Semicolon)] + [Key(Else)]
               + [Plain(Ident("x")), Plain(Token.Assign), Plain(IntLit(2)), Plain(Semicolon)])
            + [Plain(RBrace)]
  {
    hide GoodUnit, FlatUnit, FlatSpecs, FlatDeclarator, FlatStmt, One, Choose, SetX, FOfX, Unit;
    UnitDerives();
    UnitText();
    OneWord(KwVoid);
    FOfXIs();
    ChooseIs();
    SetXIs(1);
    SetXIs(2);
  }
}
