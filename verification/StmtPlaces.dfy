/** Where the parts of statements, functions and translation units stand in a stream of tokens. */
module StmtPlaces {
  import opened Wrappers
  import opened Pratt
  import opened Syntax
  import opened Spine
  import opened FirstTokens
  import opened Places
  import opened DeclPlaces
  import G = CGrammar

  /** `( e )` */
  ghost predicate ConditionAt(toks: seq<Tok>, at: nat, c: Expr, ts: iset<string>) {
    Spells(toks, at, FlatCondition(c)) && GoodExpr(c, ts)
  }

  lemma ConditionParts(toks: seq<Tok>, at: nat, c: Expr, ts: iset<string>)
    requires ConditionAt(toks, at, c, ts)
    ensures TokAt(toks, at) == Plain(LParen) && ExprAt(toks, at + 1, c, ts, 0)
    ensures TokAt(toks, at + 1 + |FlatExpr(c)|) == Plain(RParen) && |FlatCondition(c)| == 2 + |FlatExpr(c)|
  {
    hide FlatExpr, GoodExpr;
    InParens(toks, at, c, ts);
  }

  /** An optional expression before a closing token. */
  ghost predicate OptionAt(toks: seq<Tok>, at: nat, e: Option<Expr>, end: Token, ts: iset<string>) {
    && Spells(toks, at, FlatOption(e)) && GoodOption(e, G.Expression, ts)
    && TokAt(toks, at + |FlatOption(e)|) == Plain(end) && (end == Semicolon || end == RParen)
  }

  lemma OptionParts(toks: seq<Tok>, at: nat, e: Option<Expr>, end: Token, ts: iset<string>)
    requires OptionAt(toks, at, e, end, ts)
    ensures e.None? <==> TokAt(toks, at) == Plain(end)
    ensures e.None? ==> |FlatOption(e)| == 0
    ensures e.Some? ==> ExprAt(toks, at, e.value, ts, 0) && |FlatOption(e)| == |FlatExpr(e.value)|
  {
    hide FlatExpr, GoodExpr, Power, Tight, Tail, ExprAt, StartsExpr;
    if e.Some? {
      ClosingPowers();
      TailAbove(e.value, ts);
      ExprBefore(toks, at, e.value, ts, 0);
      SpineStarts(toks, at, e.value, ts, 0);
      StartsNeither(TokAt(toks, at), ts);
    }
  }

  /** What follows does not continue a statement. */
  predicate StmtEnd(s: Stmt, t: Tok) {
    && (OpenIf(s) ==> t != Key(Else))
    && (Bare(s) ==> t == Key(Case) || t == Key(Default) || t == Plain(RBrace))
  }

  ghost predicate StmtAt(toks: seq<Tok>, at: nat, s: Stmt, ts: iset<string>, inLoop: bool, inSwitch: bool) {
    && Spells(toks, at, FlatStmt(s)) && GoodStmt(s, ts, inLoop, inSwitch)
    && StmtEnd(s, TokAt(toks, at + |FlatStmt(s)|))
  }

  /** The statements of a block up to its brace. */
  ghost predicate StmtsAt(toks: seq<Tok>, at: nat, ss: seq<Stmt>, ts: iset<string>, inLoop: bool, inSwitch: bool) {
    && Spells(toks, at, FlatStmts(ss)) && GoodItems(ss, ts, inLoop, inSwitch)
    && TokAt(toks, at + |FlatStmts(ss)|) == Plain(RBrace)
  }

  lemma StmtBegins(toks: seq<Tok>, at: nat, s: Stmt, ts: iset<string>, inLoop: bool, inSwitch: bool)
    requires Spells(toks, at, FlatStmt(s)) && GoodStmt(s, ts, inLoop, inSwitch)
    ensures at < |toks| && TokAt(toks, at) != Key(Else) && TokAt(toks, at) != Plain(RBrace)
    ensures IsCase(s) <==> TokAt(toks, at) == Key(Case) || TokAt(toks, at) == Key(Default)
  {
    hide FlatStmt, GoodStmt;
    StmtFirst(s, ts, inLoop, inSwitch);
    SpellsFirst(toks, at, FlatStmt(s));
  }

  lemma StmtsDone(toks: seq<Tok>, at: nat, ss: seq<Stmt>, ts: iset<string>, inLoop: bool, inSwitch: bool)
    requires StmtsAt(toks, at, ss, ts, inLoop, inSwitch) && ss == []
    ensures TokAt(toks, at) == Plain(RBrace) && FlatStmts(ss) == []
  {
  }

  lemma StmtsText(ss: seq<Stmt>, ts: iset<string>, inLoop: bool, inSwitch: bool)
    requires ss != []
    ensures FlatStmts(ss) == FlatStmt(ss[0]) + FlatStmts(ss[1..])
    ensures GoodItems(ss, ts, inLoop, inSwitch) ==>
              && GoodStmt(ss[0], ts, inLoop, inSwitch) && GoodItems(ss[1..], AfterStmt(ss[0], ts), inLoop, inSwitch)
              && (Bare(ss[0]) && |ss| > 1 ==> IsCase(ss[1]))
  {
    hide FlatStmt, GoodStmt, AfterStmt;
  }

  lemma StmtsStep(toks: seq<Tok>, at: nat, ss: seq<Stmt>, ts: iset<string>, inLoop: bool, inSwitch: bool)
    requires StmtsAt(toks, at, ss, ts, inLoop, inSwitch) && ss != []
    ensures StmtAt(toks, at, ss[0], ts, inLoop, inSwitch) && TokAt(toks, at) != Plain(RBrace) && at < |toks|
    ensures StmtsAt(toks, at + |FlatStmt(ss[0])|, ss[1..], AfterStmt(ss[0], ts), inLoop, inSwitch)
    ensures |FlatStmts(ss)| == |FlatStmt(ss[0])| + |FlatStmts(ss[1..])|
  {
    hide FlatStmt, FlatStmts, GoodStmt, GoodItems, AfterStmt, Spells, Bare, OpenIf, IsCase;
    var next, ts1, rest := at + |FlatStmt(ss[0])|, AfterStmt(ss[0], ts), ss[1..];
    StmtsText(ss, ts, inLoop, inSwitch);
    SpellsBoth(toks, at, FlatStmt(ss[0]), FlatStmts(rest));
    StmtBegins(toks, at, ss[0], ts, inLoop, inSwitch);
    if rest == [] {
      StmtsDone(toks, next, rest, ts1, inLoop, inSwitch);
    } else {
      StmtsText(rest, ts1, inLoop, inSwitch);
      SpellsBoth(toks, next, FlatStmt(rest[0]), FlatStmts(rest[1..]));
      StmtBegins(toks, next, rest[0], ts1, inLoop, inSwitch);
      assert rest[0] == ss[1];
    }
  }

  // ----- the kinds of statements -----

  lemma ExprStmtHere(toks: seq<Tok>, at: nat, s: Stmt, ts: iset<string>, inLoop: bool, inSwitch: bool)
    requires StmtAt(toks, at, s, ts, inLoop, inSwitch) && s.ExprStmt?
    ensures ExprAt(toks, at, s.e, ts, 0) && TokAt(toks, at + |FlatExpr(s.e)|) == Plain(Semicolon)
    ensures |FlatStmt(s)| == |FlatExpr(s.e)| + 1 && at < |toks| && StartsExpr(toks[at], ts)
  {
    hide FlatExpr, GoodExpr, Power, Tight, Tail, ExprAt, StartsExpr, Spells, StmtEnd;
    SpellsBoth(toks, at, FlatExpr(s.e), Ts(Semicolon));
    SpellsToken(toks, at + |FlatExpr(s.e)|, Semicolon, []);
    ClosingPowers();
    TailAbove(s.e, ts);
    ExprBefore(toks, at, s.e, ts, 0);
    SpineStarts(toks, at, s.e, ts, 0);
  }

  lemma BlockHere(toks: seq<Tok>, at: nat, s: Stmt, ts: iset<string>, inLoop: bool, inSwitch: bool)
    requires StmtAt(toks, at, s, ts, inLoop, inSwitch) && s.Block?
    ensures TokAt(toks, at) == Plain(LBrace) && StmtsAt(toks, at + 1, s.items, ts, inLoop, inSwitch)
    ensures |FlatStmt(s)| == 2 + |FlatStmts(s.items)|
  {
    hide FlatStmts, GoodItems, Spells, StmtEnd;
    BracedHere(toks, at, FlatStmts(s.items));
  }

  lemma DeclStmtHere(toks: seq<Tok>, at: nat, s: Stmt, ts: iset<string>, inLoop: bool, inSwitch: bool)
    requires StmtAt(toks, at, s, ts, inLoop, inSwitch) && s.DeclStmt?
    ensures DeclarationAt(toks, at, s.d, ts) && FlatStmt(s) == FlatDeclaration(s.d)
    ensures StartsDeclaration(TokAt(toks, at), ts)
  {
    hide FlatDeclaration, GoodDeclaration, StmtEnd, StartsDeclaration;
    DeclarationParts(toks, at, s.d, ts);
  }

  lemma IfHere(toks: seq<Tok>, at: nat, s: Stmt, ts: iset<string>, inLoop: bool, inSwitch: bool)
    requires StmtAt(toks, at, s, ts, inLoop, inSwitch) && s.IfStmt?
    ensures TokAt(toks, at) == Key(If) && ConditionAt(toks, at + 1, s.c, ts)
    ensures var a := at + 1 + |FlatCondition(s.c)|;
            var e := a + |FlatStmt(s.a)|;
            && StmtAt(toks, a, s.a, ts, inLoop, inSwitch)
            && (if s.b.None? then TokAt(toks, e) != Key(Else) && |FlatStmt(s)| == 1 + |FlatCondition(s.c)| + |FlatStmt(s.a)|
                else && TokAt(toks, e) == Key(Else) && StmtAt(toks, e + 1, s.b.value, ts, inLoop, inSwitch)
                     && |FlatStmt(s)| == 2 + |FlatCondition(s.c)| + |FlatStmt(s.a)| + |FlatStmt(s.b.value)|)
    ensures !s.a.DeclStmt? && (s.b.Some? ==> !s.b.value.DeclStmt?)
  {
    hide FlatCondition, FlatStmt, GoodStmt, GoodExpr, Spells;
    IfText(s, ts, inLoop, inSwitch);
    var more := if s.b.Some? then Ks(Else) + FlatStmt(s.b.value) else [];
    var a := at + 1 + |FlatCondition(s.c)|;
    SpellsKey(toks, at, If, FlatCondition(s.c) + (FlatStmt(s.a) + more));
    SpellsBoth(toks, at + 1, FlatCondition(s.c), FlatStmt(s.a) + more);
    SpellsBoth(toks, a, FlatStmt(s.a), more);
    if s.b.Some? {
      SpellsKey(toks, a + |FlatStmt(s.a)|, Else, FlatStmt(s.b.value));
    }
  }

  lemma IfText(s: Stmt, ts: iset<string>, inLoop: bool, inSwitch: bool)
    requires s.IfStmt? && GoodStmt(s, ts, inLoop, inSwitch)
    ensures FlatStmt(s) ==
            Ks(If) + (FlatCondition(s.c) + (FlatStmt(s.a) + if s.b.Some? then Ks(Else) + FlatStmt(s.b.value) else []))
    ensures GoodExpr(s.c, ts) && GoodStmt(s.a, ts, inLoop, inSwitch) && !s.a.DeclStmt? && !Bare(s.a)
    ensures OpenIf(s) <==> s.b.None? || OpenIf(s.b.value)
    ensures s.b.Some? ==>
              !OpenIf(s.a) && GoodStmt(s.b.value, ts, inLoop, inSwitch) && !s.b.value.DeclStmt? && !Bare(s.b.value)
  {
    hide FlatCondition, GoodExpr;
  }

  /** `while` and `switch`: a condition and a statement. */
  lemma HeadedHere(toks: seq<Tok>, at: nat, s: Stmt, ts: iset<string>, inLoop: bool, inSwitch: bool)
    requires StmtAt(toks, at, s, ts, inLoop, inSwitch) && (s.WhileStmt? || s.SwitchStmt?)
    ensures TokAt(toks, at) == Key(if s.WhileStmt? then While else Switch) && ConditionAt(toks, at + 1, s.c, ts)
    ensures StmtAt(toks, at + 1 + |FlatCondition(s.c)|, s.s, ts, inLoop || s.WhileStmt?, inSwitch || s.SwitchStmt?)
    ensures |FlatStmt(s)| == 1 + |FlatCondition(s.c)| + |FlatStmt(s.s)| && !s.s.DeclStmt?
  {
    hide FlatCondition, FlatStmt, GoodStmt, GoodExpr, Spells;
    HeadedText(s, ts, inLoop, inSwitch);
    SpellsKey(toks, at, if s.WhileStmt? then While else Switch, FlatCondition(s.c) + FlatStmt(s.s));
    SpellsBoth(toks, at + 1, FlatCondition(s.c), FlatStmt(s.s));
  }

  lemma HeadedText(s: Stmt, ts: iset<string>, inLoop: bool, inSwitch: bool)
    requires (s.WhileStmt? || s.SwitchStmt?) && GoodStmt(s, ts, inLoop, inSwitch)
    ensures FlatStmt(s) == Ks(if s.WhileStmt? then While else Switch) + (FlatCondition(s.c) + FlatStmt(s.s))
    ensures GoodExpr(s.c, ts) && GoodStmt(s.s, ts, inLoop || s.WhileStmt?, inSwitch || s.SwitchStmt?)
    ensures !s.s.DeclStmt? && !Bare(s.s) && (OpenIf(s) <==> OpenIf(s.s))
  {
    hide FlatCondition, GoodExpr;
  }

  lemma DoHere(toks: seq<Tok>, at: nat, s: Stmt, ts: iset<string>, inLoop: bool, inSwitch: bool)
    requires StmtAt(toks, at, s, ts, inLoop, inSwitch) && s.DoStmt?
    ensures TokAt(toks, at) == Key(Do) && StmtAt(toks, at + 1, s.s, ts, true, inSwitch) && !s.s.DeclStmt?
    ensures var w := at + 1 + |FlatStmt(s.s)|;
            && TokAt(toks, w) == Key(While) && ConditionAt(toks, w + 1, s.c, ts)
            && TokAt(toks, w + 1 + |FlatCondition(s.c)|) == Plain(Semicolon)
            && |FlatStmt(s)| == 3 + |FlatStmt(s.s)| + |FlatCondition(s.c)|
  {
    hide FlatCondition, FlatStmt, GoodStmt, GoodExpr, Spells;
    DoText(s, ts, inLoop, inSwitch);
    var w := at + 1 + |FlatStmt(s.s)|;
    SpellsKey(toks, at, Do, FlatStmt(s.s) + (Ks(While) + (FlatCondition(s.c) + Ts(Semicolon))));
    SpellsBoth(toks, at + 1, FlatStmt(s.s), Ks(While) + (FlatCondition(s.c) + Ts(Semicolon)));
    SpellsKey(toks, w, While, FlatCondition(s.c) + Ts(Semicolon));
    SpellsBoth(toks, w + 1, FlatCondition(s.c), Ts(Semicolon));
    SpellsToken(toks, w + 1 + |FlatCondition(s.c)|, Semicolon, []);
  }

  lemma DoText(s: Stmt, ts: iset<string>, inLoop: bool, inSwitch: bool)
    requires s.DoStmt? && GoodStmt(s, ts, inLoop, inSwitch)
    ensures FlatStmt(s) == Ks(Do) + (FlatStmt(s.s) + (Ks(While) + (FlatCondition(s.c) + Ts(Semicolon))))
    ensures GoodExpr(s.c, ts) && GoodStmt(s.s, ts, true, inSwitch) && !s.s.DeclStmt? && !Bare(s.s)
  {
    hide FlatCondition, GoodExpr;
  }

  ghost predicate ForInitAt(toks: seq<Tok>, at: nat, i: ForInit, ts: iset<string>) {
    Spells(toks, at, FlatForInit(i)) && GoodForInit(i, ts)
  }

  lemma ForHere(toks: seq<Tok>, at: nat, s: Stmt, ts: iset<string>, inLoop: bool, inSwitch: bool)
    requires StmtAt(toks, at, s, ts, inLoop, inSwitch) && s.ForStmt?
    ensures TokAt(toks, at) == Key(For) && TokAt(toks, at + 1) == Plain(LParen) && ForInitAt(toks, at + 2, s.init, ts)
    ensures var test := at + 2 + |FlatForInit(s.init)|;
            var step := test + |FlatOption(s.test)| + 1;
            var body := step + |FlatOption(s.step)| + 1;
            && OptionAt(toks, test, s.test, Semicolon, ts) && OptionAt(toks, step, s.step, RParen, ts)
            && StmtAt(toks, body, s.s, ts, true, inSwitch) && at + |FlatStmt(s)| == body + |FlatStmt(s.s)|
    ensures !s.s.DeclStmt?
  {
    hide FlatForInit, FlatOption, FlatStmt, GoodStmt, GoodExpr, GoodForInit, GoodOption, Spells;
    ForText(s, ts, inLoop, inSwitch);
    ForTokens(toks, at, FlatForInit(s.init), FlatOption(s.test), FlatOption(s.step), FlatStmt(s.s));
  }

  /** `for ( init test ; step ) body` */
  lemma ForTokens(toks: seq<Tok>, at: nat, init: seq<Tok>, test: seq<Tok>, step: seq<Tok>, body: seq<Tok>)
    requires Spells(toks, at, Ks(For) + (Ts(LParen) + (init + (test + (Ts(Semicolon) + (step + (Ts(RParen) + body)))))))
    ensures TokAt(toks, at) == Key(For) && TokAt(toks, at + 1) == Plain(LParen)
    ensures Spells(toks, at + 2, init) && Spells(toks, at + 2 + |init|, test)
    ensures var t := at + 2 + |init| + |test|;
            var r := t + 1 + |step|;
            && TokAt(toks, t) == Plain(Semicolon) && Spells(toks, t + 1, step)
            && TokAt(toks, r) == Plain(RParen) && Spells(toks, r + 1, body)
    ensures |Ks(For) + (Ts(LParen) + (init + (test + (Ts(Semicolon) + (step + (Ts(RParen) + body))))))|
            == 4 + |init| + |test| + |step| + |body|
  {
    hide Spells;
    var t1 := Ts(RParen) + body;
    var t2 := Ts(Semicolon) + (step + t1);
    SpellsKey(toks, at, For, Ts(LParen) + (init + (test + t2)));
    SpellsToken(toks, at + 1, LParen, init + (test + t2));
    SpellsBoth(toks, at + 2, init, test + t2);
    SpellsBoth(toks, at + 2 + |init|, test, t2);
    SpellsToken(toks, at + 2 + |init| + |test|, Semicolon, step + t1);
    SpellsBoth(toks, at + 3 + |init| + |test|, step, t1);
    SpellsToken(toks, at + 3 + |init| + |test| + |step|, RParen, body);
  }

  lemma ForText(s: Stmt, ts: iset<string>, inLoop: bool, inSwitch: bool)
    requires s.ForStmt? && GoodStmt(s, ts, inLoop, inSwitch)
    ensures FlatStmt(s) ==
            Ks(For) + (Ts(LParen) + (FlatForInit(s.init)
                       + (FlatOption(s.test) + (Ts(Semicolon) + (FlatOption(s.step) + (Ts(RParen) + FlatStmt(s.s)))))))
    ensures GoodForInit(s.init, ts) && GoodOption(s.test, G.Expression, ts) && GoodOption(s.step, G.Expression, ts)
    ensures GoodStmt(s.s, ts, true, inSwitch) && !s.s.DeclStmt? && !Bare(s.s) && (OpenIf(s) <==> OpenIf(s.s))
  {
    hide FlatForInit, FlatOption, GoodExpr, GoodForInit, GoodOption;
  }

  lemma ForInitHere(toks: seq<Tok>, at: nat, i: ForInit, ts: iset<string>)
    requires ForInitAt(toks, at, i, ts)
    ensures at < |toks|
    ensures match i
            case NoInit => TokAt(toks, at) == Plain(Semicolon) && |FlatForInit(i)| == 1
            case InitExpr(e) =>
              && TokAt(toks, at) != Plain(Semicolon) && StartsExpr(TokAt(toks, at), ts) && ExprAt(toks, at, e, ts, 0)
              && TokAt(toks, at + |FlatExpr(e)|) == Plain(Semicolon) && |FlatForInit(i)| == |FlatExpr(e)| + 1
            case InitDecl(d) =>
              && TokAt(toks, at) != Plain(Semicolon) && StartsDeclaration(TokAt(toks, at), ts)
              && DeclarationAt(toks, at, d, ts) && FlatForInit(i) == FlatDeclaration(d) && AfterDeclaration(d, ts) == ts
  {
    hide FlatExpr, GoodExpr, Power, Tight, Tail, ExprAt, StartsExpr, StartsDeclaration, Spells, FlatDeclaration,
         GoodDeclaration, AfterDeclaration;
    match i
    case NoInit => SpellsToken(toks, at, Semicolon, []);
    case InitExpr(e) =>
      SpellsBoth(toks, at, FlatExpr(e), Ts(Semicolon));
      SpellsToken(toks, at + |FlatExpr(e)|, Semicolon, []);
      ClosingPowers();
      TailAbove(e, ts);
      ExprBefore(toks, at, e, ts, 0);
      SpineStarts(toks, at, e, ts, 0);
      StartsNeither(TokAt(toks, at), ts);
    case InitDecl(d) =>
      DeclarationParts(toks, at, d, ts);
      StartsNeither(TokAt(toks, at), ts);
  }

  /** The statement after a `case` or `default` label, if it has one. */
  ghost predicate ThenAt(toks: seq<Tok>, at: nat, b: Option<Stmt>, ts: iset<string>, inLoop: bool, inSwitch: bool) {
    var t := TokAt(toks, at);
    if b.None? then t == Key(Case) || t == Key(Default) || t == Plain(RBrace)
    else && StmtAt(toks, at, b.value, ts, inLoop, inSwitch) && !b.value.DeclStmt?
         && t != Key(Case) && t != Key(Default) && t != Plain(RBrace)
  }

  lemma ThenHere(toks: seq<Tok>, at: nat, b: Option<Stmt>, ts: iset<string>, inLoop: bool, inSwitch: bool)
    requires Spells(toks, at, FlatThen(b))
    requires b.Some? ==> GoodPart(b.value, ts, inLoop, inSwitch) && !IsCase(b.value)
    requires b.Some? && OpenIf(b.value) ==> TokAt(toks, at + |FlatThen(b)|) != Key(Else)
    requires b.None? ==> var t := TokAt(toks, at); t == Key(Case) || t == Key(Default) || t == Plain(RBrace)
    ensures ThenAt(toks, at, b, ts, inLoop, inSwitch)
  {
    hide FlatStmt, GoodStmt, Spells;
    if b.Some? {
      StmtBegins(toks, at, b.value, ts, inLoop, inSwitch);
    }
  }

  lemma CaseText(s: Stmt, ts: iset<string>, inLoop: bool, inSwitch: bool)
    requires s.CaseStmt? && GoodStmt(s, ts, inLoop, inSwitch)
    ensures FlatStmt(s) == Ks(Case) + (FlatExpr(s.e) + (Ts(Colon) + FlatThen(s.then_))) && GoodExpr(s.e, ts)
    ensures s.then_.Some? ==> GoodPart(s.then_.value, ts, inLoop, inSwitch) && !IsCase(s.then_.value)
    ensures OpenIf(s) <==> s.then_.Some? && OpenIf(s.then_.value)
    ensures s.then_.None? ==> FlatThen(s.then_) == []
  {
    hide FlatExpr, GoodExpr, GoodPart;
  }

  lemma CaseHere(toks: seq<Tok>, at: nat, s: Stmt, ts: iset<string>, inLoop: bool, inSwitch: bool)
    requires StmtAt(toks, at, s, ts, inLoop, inSwitch) && s.CaseStmt?
    ensures TokAt(toks, at) == Key(Case) && ExprAt(toks, at + 1, s.e, ts, 0)
    ensures var colon := at + 1 + |FlatExpr(s.e)|;
            && TokAt(toks, colon) == Plain(Colon) && ThenAt(toks, colon + 1, s.then_, ts, inLoop, inSwitch)
            && |FlatStmt(s)| == 2 + |FlatExpr(s.e)| + |FlatThen(s.then_)|
  {
    hide FlatExpr, GoodExpr, FlatStmt, GoodStmt, GoodPart, FlatThen, Spells, Power, Tight, Tail, ExprAt, ThenAt;
    CaseText(s, ts, inLoop, inSwitch);
    var colon := at + 1 + |FlatExpr(s.e)|;
    SpellsKey(toks, at, Case, FlatExpr(s.e) + (Ts(Colon) + FlatThen(s.then_)));
    SpellsBoth(toks, at + 1, FlatExpr(s.e), Ts(Colon) + FlatThen(s.then_));
    SpellsToken(toks, colon, Colon, FlatThen(s.then_));
    ClosingPowers();
    TailAbove(s.e, ts);
    ExprBefore(toks, at + 1, s.e, ts, 0);
    ThenHere(toks, colon + 1, s.then_, ts, inLoop, inSwitch);
  }

  lemma DefaultText(s: Stmt, ts: iset<string>, inLoop: bool, inSwitch: bool)
    requires s.DefaultStmt? && GoodStmt(s, ts, inLoop, inSwitch)
    ensures FlatStmt(s) == Ks(Default) + (Ts(Colon) + FlatThen(s.then_))
    ensures s.then_.Some? ==> GoodPart(s.then_.value, ts, inLoop, inSwitch) && !IsCase(s.then_.value)
    ensures OpenIf(s) <==> s.then_.Some? && OpenIf(s.then_.value)
    ensures s.then_.None? ==> FlatThen(s.then_) == []
  {
    hide GoodPart;
  }

  lemma DefaultHere(toks: seq<Tok>, at: nat, s: Stmt, ts: iset<string>, inLoop: bool, inSwitch: bool)
    requires StmtAt(toks, at, s, ts, inLoop, inSwitch) && s.DefaultStmt?
    ensures TokAt(toks, at) == Key(Default) && TokAt(toks, at + 1) == Plain(Colon)
    ensures ThenAt(toks, at + 2, s.then_, ts, inLoop, inSwitch) && |FlatStmt(s)| == 2 + |FlatThen(s.then_)|
  {
    hide FlatStmt, GoodStmt, GoodPart, FlatThen, Spells, ThenAt;
    DefaultText(s, ts, inLoop, inSwitch);
    SpellsKey(toks, at, Default, Ts(Colon) + FlatThen(s.then_));
    SpellsToken(toks, at + 1, Colon, FlatThen(s.then_));
    ThenHere(toks, at + 2, s.then_, ts, inLoop, inSwitch);
  }

  lemma LabelHere(toks: seq<Tok>, at: nat, s: Stmt, ts: iset<string>, inLoop: bool, inSwitch: bool)
    requires StmtAt(toks, at, s, ts, inLoop, inSwitch) && s.LabelStmt?
    ensures TokAt(toks, at) == Plain(Ident(s.x)) && s.x !in ts && TokAt(toks, at + 1) == Plain(Colon)
    ensures StmtAt(toks, at + 2, s.s, ts, inLoop, inSwitch) && |FlatStmt(s)| == 2 + |FlatStmt(s.s)| && !s.s.DeclStmt?
  {
    hide FlatStmt, GoodStmt, Spells;
    LabelText(s, ts, inLoop, inSwitch);
    SpellsToken(toks, at, Ident(s.x), Ts(Colon) + FlatStmt(s.s));
    SpellsToken(toks, at + 1, Colon, FlatStmt(s.s));
  }

  lemma LabelText(s: Stmt, ts: iset<string>, inLoop: bool, inSwitch: bool)
    requires s.LabelStmt? && GoodStmt(s, ts, inLoop, inSwitch)
    ensures FlatStmt(s) == Ts(Ident(s.x)) + (Ts(Colon) + FlatStmt(s.s)) && s.x !in ts
    ensures GoodStmt(s.s, ts, inLoop, inSwitch) && !s.s.DeclStmt? && !Bare(s.s) && (OpenIf(s) <==> OpenIf(s.s))
  {
  }

  /** The statements that end at their semicolon. */
  lemma SimpleHere(toks: seq<Tok>, at: nat, s: Stmt, ts: iset<string>, inLoop: bool, inSwitch: bool)
    requires StmtAt(toks, at, s, ts, inLoop, inSwitch)
    requires s.EmptyStmt? || s.GotoStmt? || s.BreakStmt? || s.ContinueStmt?
    ensures TokAt(toks, at + |FlatStmt(s)| - 1) == Plain(Semicolon) && |FlatStmt(s)| >= 1
    ensures s.EmptyStmt? ==> |FlatStmt(s)| == 1
    ensures s.GotoStmt? ==> TokAt(toks, at) == Key(Goto) && TokAt(toks, at + 1) == Plain(Ident(s.x)) && |FlatStmt(s)| == 3
    ensures s.BreakStmt? ==> TokAt(toks, at) == Key(Break) && |FlatStmt(s)| == 2 && (inLoop || inSwitch)
    ensures s.ContinueStmt? ==> TokAt(toks, at) == Key(Continue) && |FlatStmt(s)| == 2 && inLoop
  {
    hide Spells, StmtEnd;
    match s
    case EmptyStmt => SpellsToken(toks, at, Semicolon, []);
    case GotoStmt(x) =>
      SpellsKey(toks, at, Goto, Ts(Ident(x)) + Ts(Semicolon));
      SpellsToken(toks, at + 1, Ident(x), Ts(Semicolon));
      SpellsToken(toks, at + 2, Semicolon, []);
    case BreakStmt =>
      SpellsKey(toks, at, Break, Ts(Semicolon));
      SpellsToken(toks, at + 1, Semicolon, []);
    case ContinueStmt =>
      SpellsKey(toks, at, Continue, Ts(Semicolon));
      SpellsToken(toks, at + 1, Semicolon, []);
  }

  lemma ReturnHere(toks: seq<Tok>, at: nat, s: Stmt, ts: iset<string>, inLoop: bool, inSwitch: bool)
    requires StmtAt(toks, at, s, ts, inLoop, inSwitch) && s.ReturnStmt?
    ensures TokAt(toks, at) == Key(Return) && OptionAt(toks, at + 1, s.value, Semicolon, ts)
    ensures |FlatStmt(s)| == 2 + |FlatOption(s.value)|
  {
    hide FlatOption, GoodOption, Spells, StmtEnd;
    SpellsKey(toks, at, Return, FlatOption(s.value) + Ts(Semicolon));
    SpellsBoth(toks, at + 1, FlatOption(s.value), Ts(Semicolon));
    SpellsToken(toks, at + 1 + |FlatOption(s.value)|, Semicolon, []);
  }

  // ----- functions and units -----

  ghost predicate UnitAt(toks: seq<Tok>, at: nat, u: seq<External>, ts: iset<string>) {
    Spells(toks, at, FlatUnit(u)) && GoodUnit(u, ts) && at + |FlatUnit(u)| == |toks|
  }

  ghost predicate ExternalAt(toks: seq<Tok>, at: nat, x: External, ts: iset<string>) {
    Spells(toks, at, FlatExternal(x)) && GoodExternal(x, ts)
  }

  lemma UnitDone(toks: seq<Tok>, at: nat, u: seq<External>, ts: iset<string>)
    requires UnitAt(toks, at, u, ts) && u == []
    ensures at == |toks|
  {
  }

  lemma UnitText(u: seq<External>, ts: iset<string>)
    requires u != []
    ensures FlatUnit(u) == FlatExternal(u[0]) + FlatUnit(u[1..])
    ensures GoodUnit(u, ts) ==> GoodExternal(u[0], ts) && GoodUnit(u[1..], AfterExternal(u[0], ts))
  {
    hide FlatExternal, GoodExternal, AfterExternal;
  }

  lemma UnitStep(toks: seq<Tok>, at: nat, u: seq<External>, ts: iset<string>)
    requires UnitAt(toks, at, u, ts) && u != []
    ensures ExternalAt(toks, at, u[0], ts)
    ensures UnitAt(toks, at + |FlatExternal(u[0])|, u[1..], AfterExternal(u[0], ts))
    ensures at < |toks| && StartsDeclaration(TokAt(toks, at), ts)
  {
    hide FlatExternal, FlatUnit, GoodExternal, GoodUnit, AfterExternal, StartsDeclaration, Spells;
    UnitText(u, ts);
    SpellsBoth(toks, at, FlatExternal(u[0]), FlatUnit(u[1..]));
    ExternalBegins(toks, at, u[0], ts);
  }

  lemma ExternalBegins(toks: seq<Tok>, at: nat, x: External, ts: iset<string>)
    requires ExternalAt(toks, at, x, ts)
    ensures at < |toks| && StartsDeclaration(TokAt(toks, at), ts)
  {
    hide StartsDeclaration, FlatDeclaration, GoodDeclaration, FlatSpecs, GoodSpecs, FlatDeclarator, GoodDeclarator,
         FlatStmt, GoodItems, Spells;
    match x
    case Declares(d) => DeclarationParts(toks, at, d, ts);
    case FunctionDef(specs, d, body) =>
      SpellsBoth(toks, at, FlatSpecs(specs), FlatDeclarator(d) + FlatStmt(Block(body)));
      SpecsFirst(specs, ts);
      SpellsFirst(toks, at, FlatSpecs(specs));
  }

  lemma FunctionParts(toks: seq<Tok>, at: nat, x: External, ts: iset<string>)
    requires ExternalAt(toks, at, x, ts) && x.FunctionDef?
    ensures SpecsAt(toks, at, x.specs, ts)
    ensures var ts1, d := AfterSpecs(x.specs, ts), at + |FlatSpecs(x.specs)|;
            var b := d + |FlatDeclarator(x.d)|;
            && DeclaratorAt(toks, d, x.d, ts1) && Declared(x.d).Some? && FunctionParams(x.d).Some? && !IsTypedef(x.specs)
            && TokAt(toks, b) == Plain(LBrace) && TokAt(toks, d) != Plain(Semicolon)
            && StmtAt(toks, b, Block(x.body), HideNames(FunctionParams(x.d).value, ts1), false, false)
            && at + |FlatExternal(x)| == b + |FlatStmt(Block(x.body))|
    ensures AfterExternal(x, ts) == AfterName(x.d, false, AfterSpecs(x.specs, ts))
  {
    hide FlatSpecs, GoodSpecs, FlatDeclarator, GoodDeclarator, FlatStmt, GoodStmt, GoodItems, Spells, AfterSpecs,
         HideNames, FunctionParams, IsTypedef, NameClear, AfterName, FlatExternal, GoodExternal, SpecsAt,
         DeclaratorAt;
    FunctionText(x, ts);
    var d := at + |FlatSpecs(x.specs)|;
    var b := d + |FlatDeclarator(x.d)|;
    SpellsBoth(toks, at, FlatSpecs(x.specs), FlatDeclarator(x.d) + FlatStmt(Block(x.body)));
    SpellsBoth(toks, d, FlatDeclarator(x.d), FlatStmt(Block(x.body)));
    SpellsBoth(toks, at, FlatSpecs(x.specs), FlatDeclarator(x.d));
    BlockBegins(toks, b, x.body);
    DeclaratorBegins(toks, d, x.d, AfterSpecs(x.specs, ts));
    SpecsDeclarator(toks, at, x.specs, x.d, ts);
  }

  lemma BlockBegins(toks: seq<Tok>, at: nat, items: seq<Stmt>)
    requires Spells(toks, at, FlatStmt(Block(items)))
    ensures TokAt(toks, at) == Plain(LBrace)
  {
    hide FlatStmts;
    BracedHere(toks, at, FlatStmts(items));
  }

  lemma DeclaratorBegins(toks: seq<Tok>, at: nat, d: Declarator, ts: iset<string>)
    requires Spells(toks, at, FlatDeclarator(d)) && GoodDeclarator(d, ts) && Declared(d).Some?
    ensures TokAt(toks, at) != Plain(Semicolon) && d != Declarator([], NoName, [])
  {
    hide FlatDeclarator, GoodDeclarator, Spells;
    DeclaratorFirst(d, ts);
    SpellsFirst(toks, at, FlatDeclarator(d));
  }

  lemma FunctionText(x: External, ts: iset<string>)
    requires x.FunctionDef? && GoodExternal(x, ts)
    ensures var ts1 := AfterSpecs(x.specs, ts);
            && FlatExternal(x) == FlatSpecs(x.specs) + (FlatDeclarator(x.d) + FlatStmt(Block(x.body)))
            && GoodSpecs(x.specs, ts) && !IsTypedef(x.specs) && NameClear(x.specs, ts1, x.d)
            && GoodDeclarator(x.d, ts1) && Declared(x.d).Some? && FunctionParams(x.d).Some?
            && GoodStmt(Block(x.body), HideNames(FunctionParams(x.d).value, ts1), false, false)
            && !OpenIf(Block(x.body)) && !Bare(Block(x.body))
            && AfterExternal(x, ts) == AfterName(x.d, false, ts1)
  {
    hide FlatSpecs, GoodSpecs, FlatDeclarator, GoodDeclarator, FlatStmt, GoodItems, AfterSpecs, HideNames,
         FunctionParams, IsTypedef, NameClear, AfterName;
  }

  /** The declarator and the body of a function definition. */
  ghost predicate FunctionAt(toks: seq<Tok>, at: nat, x: External, ts: iset<string>) {
    && x.FunctionDef? && DeclaratorAt(toks, at, x.d, ts) && Declared(x.d).Some? && FunctionParams(x.d).Some?
    && TokAt(toks, at) != Plain(Semicolon)
    && (var b := at + |FlatDeclarator(x.d)|;
        && TokAt(toks, b) == Plain(LBrace)
        && StmtAt(toks, b, Block(x.body), HideNames(FunctionParams(x.d).value, ts), false, false))
  }

  /** An expression statement that begins with a name: the name is the first operand, and no label. */
  lemma NameFirst(toks: seq<Tok>, at: nat, e: Expr, ts: iset<string>)
    requires ExprAt(toks, at, e, ts, 0) && IsName(TokAt(toks, at))
    requires TokAt(toks, at + |FlatExpr(e)|) == Plain(Semicolon)
    ensures |FlatExpr(SpineAt(e, Depth(e)))| == 1 && TokAt(toks, at + 1) != Plain(Colon)
  {
    hide FlatExpr, ExprAt, NudAt, LedAt, HasLeft, Depth, SpineAt, StartsExpr, Rest, Tight, Tail, Power;
    var b := SpineAt(e, Depth(e));
    SpineStarts(toks, at, e, ts, 0);
    NudKind(toks, at, b, ts);
    if Depth(e) == 0 {
      SpineTurn(toks, at, e, ts, 0, 0);
    } else {
      SpineGoes(toks, at, e, ts, 0, Depth(e));
      ClosingPowers();
    }
  }
}
