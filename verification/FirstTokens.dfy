/** How the parts of a program begin: enough to tell them apart by one token and the visible type names. */
module FirstTokens {
  import opened Wrappers
  import opened Pratt
  import opened Syntax
  import opened Spine
  import G = CGrammar

  predicate IsName(t: Tok) {
    t.Plain? && t.t.Ident?
  }

  predicate IsAttribute(t: Tok) {
    t.Key? && (t.k.Attribute? || t.k.Asm? || t.k.Extension? || t.k.Nonnull? || t.k.Noreturn? || t.k.Nullable?)
  }

  ghost predicate StartsExpr(t: Tok, ts: iset<string>) {
    match t
    case Plain(x) => IsPrefix(x) || x == LParen || (IsAtom(x) && (x.Ident? ==> x.name !in ts))
    case Key(k) => k == Sizeof || k == Alignof
  }

  ghost predicate StartsDeclaration(t: Tok, ts: iset<string>) {
    match t
    case Plain(x) => x.Ident? && x.name in ts
    case Key(k) => IsStorage(k) || IsQualifier(k) || IsTypeWord(k) || k in {Inline, Struct, Union, Enum}
  }

  lemma {:induction false} ExprFirst(e: Expr, ts: iset<string>)
    requires GoodExpr(e, ts)
    ensures FlatExpr(e) != [] && StartsExpr(FlatExpr(e)[0], ts)
    decreases e
  {
    if HasLeft(e) {
      FlatLeft(e);
      LeftOperand(e, ts);
      ExprFirst(Left(e), ts);
    } else {
      BaseStarts(e, ts);
    }
  }

  lemma BaseStarts(e: Expr, ts: iset<string>)
    requires GoodExpr(e, ts) && !HasLeft(e)
    ensures FlatExpr(e) != [] && StartsExpr(FlatExpr(e)[0], ts)
    ensures FlatExpr(e)[0].Plain? && IsAtom(FlatExpr(e)[0].t) ==> e == Leaf(FlatExpr(e)[0].t)
  {
    hide GoodType, GoodBraces;
  }

  /** An expression begins as the first operand on its spine does. */
  lemma {:induction false} SpineFirst(e: Expr, ts: iset<string>)
    requires GoodExpr(e, ts)
    ensures var b := SpineAt(e, Depth(e)); FlatExpr(b) != [] && FlatExpr(e) != [] && FlatExpr(e)[0] == FlatExpr(b)[0]
    decreases e
  {
    hide GoodExpr, FlatExpr, StartsExpr, Left;
    ExprFirst(e, ts);
    if HasLeft(e) {
      FlatLeft(e);
      LeftOperand(e, ts);
      ExprFirst(Left(e), ts);
      SpineFirst(Left(e), ts);
    }
  }

  lemma SpecsFirst(specs: seq<Spec>, ts: iset<string>)
    requires GoodSpecs(specs, ts)
    ensures specs != [] && FlatSpecs(specs) != [] && StartsDeclaration(FlatSpecs(specs)[0], ts)
  {
    assert specs != [] by { HasType(specs); }
    SpecFirst(specs[0], ts);
  }

  lemma HasType(specs: seq<Spec>)
    requires OneType(specs)
    ensures specs != []
  {
  }

  lemma SpecFirst(s: Spec, ts: iset<string>)
    requires GoodSpec(s, ts)
    ensures FlatSpec(s) != [] && StartsDeclaration(FlatSpec(s)[0], ts)
  {
    hide GoodMembers, GoodEnums;
  }

  predicate StartsDeclarator(t: Tok) {
    t == Plain(Star) || t == Plain(LParen) || t == Plain(LBracket) || (t.Plain? && t.t.Ident?)
  }

  lemma DeclaratorFirst(d: Declarator, ts: iset<string>)
    requires GoodDeclarator(d, ts)
    ensures FlatDeclarator(d) == [] <==> d == Declarator([], NoName, [])
    ensures FlatDeclarator(d) != [] ==>
              var t := FlatDeclarator(d)[0];
              && StartsDeclarator(t)
              && (t.Plain? && t.t.Ident? ==> d.stars == [] && d.core == NameOf(t.t.name))
  {
    if d.suffixes != [] {
      SuffixFirst(d.suffixes[0]);
    }
  }

  lemma SuffixFirst(s: Suffix)
    ensures FlatSuffix(s) != [] && FlatSuffix(s)[0] == if s.Bounds? then Plain(LBracket) else Plain(LParen)
  {
  }

  lemma StmtFirst(s: Stmt, ts: iset<string>, inLoop: bool, inSwitch: bool)
    requires GoodStmt(s, ts, inLoop, inSwitch)
    ensures FlatStmt(s) != [] && FlatStmt(s)[0] != Key(Else)
    ensures IsCase(s) <==> FlatStmt(s)[0] == Key(Case) || FlatStmt(s)[0] == Key(Default)
    ensures FlatStmt(s)[0] != Plain(RBrace)
  {
    hide GoodStmt, FlatStmt, StartsExpr, StartsDeclaration, GoodExpr, GoodDeclaration;
    if s.ExprStmt? {
      ExprStmtFirst(s, ts, inLoop, inSwitch);
      StartsNeither(FlatStmt(s)[0], ts);
    } else if s.DeclStmt? {
      DeclStmtFirst(s, ts, inLoop, inSwitch);
      StartsNeither(FlatStmt(s)[0], ts);
    } else {
      KeywordFirst(s);
    }
  }

  /** What begins an expression or a declaration begins nothing else. */
  lemma StartsNeither(t: Tok, ts: iset<string>)
    ensures StartsExpr(t, ts) ==> !StartsDeclaration(t, ts)
    ensures StartsExpr(t, ts) || StartsDeclaration(t, ts) ==>
              && t != Plain(RBrace) && t != Plain(LBrace) && t != Plain(Semicolon) && t != Plain(RParen)
              && t != Plain(RBracket) && t != Plain(Dot) && t != Plain(LBracket) && t != Plain(Comma)
              && (t.Key? ==> t.k !in {Else, Case, Default, If, While, Do, For, Switch, Return, Break, Continue, Goto,
                                      Pragma, Ellipsis})
  {
  }

  lemma ExprStmtFirst(s: Stmt, ts: iset<string>, inLoop: bool, inSwitch: bool)
    requires s.ExprStmt? && GoodStmt(s, ts, inLoop, inSwitch)
    ensures GoodExpr(s.e, ts) && FlatStmt(s) != [] && StartsExpr(FlatStmt(s)[0], ts)
  {
    hide FlatExpr, GoodExpr;
    ExprFirst(s.e, ts);
  }

  lemma DeclStmtFirst(s: Stmt, ts: iset<string>, inLoop: bool, inSwitch: bool)
    requires s.DeclStmt? && GoodStmt(s, ts, inLoop, inSwitch)
    ensures GoodDeclaration(s.d, ts) && FlatStmt(s) != [] && StartsDeclaration(FlatStmt(s)[0], ts)
  {
    hide FlatSpecs, GoodSpecs;
    SpecsFirst(s.d.specs, ts);
  }

  lemma KeywordFirst(s: Stmt)
    requires !s.ExprStmt? && !s.DeclStmt?
    ensures FlatStmt(s) != [] && FlatStmt(s)[0] != Key(Else) && FlatStmt(s)[0] != Plain(RBrace)
    ensures IsCase(s) <==> FlatStmt(s)[0] == Key(Case) || FlatStmt(s)[0] == Key(Default)
  {
    hide FlatExpr, FlatDeclaration, FlatCondition, FlatForInit, FlatOption;
  }
}
