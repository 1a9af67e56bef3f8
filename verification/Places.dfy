/**
 Where the parts of a tree stand in a stream of tokens. Each predicate `...At` says that the text of
 a tree of the grammar begins at a position and that what follows does not continue it; each lemma
 takes one of them apart into those of its parts.
 */
module Places {
  import opened Wrappers
  import opened Pratt
  import opened Syntax
  import opened Spine
  import opened FirstTokens
  import G = CGrammar

  predicate Spells(toks: seq<Tok>, at: nat, s: seq<Tok>) {
    at + |s| <= |toks| && toks[at..at + |s|] == s
  }

  function TokAt(toks: seq<Tok>, i: nat): Tok {
    if i < |toks| then toks[i] else Key(Eof)
  }

  lemma SpellsBoth(toks: seq<Tok>, at: nat, a: seq<Tok>, b: seq<Tok>)
    ensures Spells(toks, at, a + b) <==> Spells(toks, at, a) && Spells(toks, at + |a|, b)
  {
    if at + |a| + |b| <= |toks| {
      var s := toks[at..at + |a + b|];
      assert s[..|a|] == toks[at..at + |a|] && s[|a|..] == toks[at + |a|..at + |a| + |b|];
      assert s == s[..|a|] + s[|a|..];
      assert (a + b)[..|a|] == a && (a + b)[|a|..] == b;
    }
  }

  lemma SpellsToken(toks: seq<Tok>, at: nat, t: Token, b: seq<Tok>)
    ensures |Ts(t)| == 1 && |Ts(t) + b| == 1 + |b|
    ensures Spells(toks, at, Ts(t) + b) <==> TokAt(toks, at) == Plain(t) && Spells(toks, at + 1, b)
    ensures Spells(toks, at, Ts(t)) <==> TokAt(toks, at) == Plain(t)
    ensures TokAt(toks, at) == Plain(t) ==> at < |toks|
  {
    SpellsBoth(toks, at, Ts(t), b);
  }

  lemma SpellsKey(toks: seq<Tok>, at: nat, k: Word, b: seq<Tok>)
    requires k != Eof
    ensures |Ks(k)| == 1 && |Ks(k) + b| == 1 + |b|
    ensures Spells(toks, at, Ks(k) + b) <==> TokAt(toks, at) == Key(k) && Spells(toks, at + 1, b)
    ensures Spells(toks, at, Ks(k)) <==> TokAt(toks, at) == Key(k)
    ensures TokAt(toks, at) == Key(k) ==> at < |toks|
  {
    SpellsBoth(toks, at, Ks(k), b);
  }

  lemma SpellsFirst(toks: seq<Tok>, at: nat, s: seq<Tok>)
    requires Spells(toks, at, s)
    ensures s != [] ==> at < |toks| && TokAt(toks, at) == s[0]
  {
    if s != [] {
      assert toks[at..at + |s|][0] == toks[at];
    }
  }

  // ----- expressions -----

  /** For a parser at power `bp`. */
  ghost predicate ExprAt(toks: seq<Tok>, at: nat, e: Expr, ts: iset<string>, bp: nat) {
    var n := Power(TokAt(toks, at + |FlatExpr(e)|));
    Spells(toks, at, FlatExpr(e)) && GoodExpr(e, ts) && Tight(e) > bp && n <= bp && n <= Tail(e)
  }

  /** The operand at the bottom of a spine. */
  ghost predicate NudAt(toks: seq<Tok>, at: nat, e: Expr, ts: iset<string>) {
    && !HasLeft(e) && Spells(toks, at, FlatExpr(e)) && GoodExpr(e, ts)
    && Power(TokAt(toks, at + |FlatExpr(e)|)) <= Tail(e)
  }

  /** The operator of `e` and what comes after it. */
  ghost predicate LedAt(toks: seq<Tok>, at: nat, e: Expr, ts: iset<string>) {
    && HasLeft(e) && Spells(toks, at, Ts(Operator(e)) + Rest(e)) && GoodExpr(e, ts)
    && Power(TokAt(toks, at + 1 + |Rest(e)|)) <= Tail(e)
  }

  /** An expression before a token that continues none. */
  lemma ExprBefore(toks: seq<Tok>, at: nat, e: Expr, ts: iset<string>, bp: nat)
    requires Spells(toks, at, FlatExpr(e)) && GoodExpr(e, ts) && Tight(e) > bp
    requires Power(TokAt(toks, at + |FlatExpr(e)|)) == 0
    ensures ExprAt(toks, at, e, ts, bp)
  {
    hide FlatExpr, GoodExpr, Tight, Tail;
    TailAbove(e, ts);
  }

  lemma {:induction false} SpineSpells(toks: seq<Tok>, at: nat, e: Expr, k: nat)
    requires Spells(toks, at, FlatExpr(e)) && k <= Depth(e)
    ensures Spells(toks, at, FlatExpr(SpineAt(e, k)))
    decreases k
  {
    hide FlatExpr, Rest;
    if k > 0 {
      FlatLeft(e);
      SpellsBoth(toks, at, FlatExpr(Left(e)), Ts(Operator(e)) + Rest(e));
      SpineSpells(toks, at, Left(e), k - 1);
    }
  }

  lemma SpineStarts(toks: seq<Tok>, at: nat, e: Expr, ts: iset<string>, bp: nat)
    requires ExprAt(toks, at, e, ts, bp)
    ensures at < |toks| && NudAt(toks, at, SpineAt(e, Depth(e)), ts)
    ensures StartsExpr(toks[at], ts)
  {
    hide FlatExpr, GoodExpr, Tight, Tail, HasLeft;
    SpineBottom(e);
    SpineSpells(toks, at, e, Depth(e));
    SpineGood(e, ts, Depth(e));
    SpineTail(toks, at, e, ts, Depth(e));
    ExprFirst(e, ts);
    SpellsFirst(toks, at, FlatExpr(e));
  }

  /** What follows a step of the spine is not taken in below it. */
  lemma SpineTail(toks: seq<Tok>, at: nat, e: Expr, ts: iset<string>, k: nat)
    requires Spells(toks, at, FlatExpr(e)) && GoodExpr(e, ts) && k <= Depth(e)
    requires Power(TokAt(toks, at + |FlatExpr(e)|)) <= Tail(e)
    ensures Power(TokAt(toks, at + |FlatExpr(SpineAt(e, k))|)) <= Tail(SpineAt(e, k))
  {
    hide FlatExpr, GoodExpr, Tight, Tail, Rest, Power, HasLeft, Left;
    if k > 0 {
      SpineUp(toks, at, e, ts, k);
    }
  }

  /** The operator above step `k` of the spine. */
  lemma SpineUp(toks: seq<Tok>, at: nat, e: Expr, ts: iset<string>, k: nat)
    requires Spells(toks, at, FlatExpr(e)) && GoodExpr(e, ts) && 0 < k <= Depth(e)
    ensures var p, here := SpineAt(e, k - 1), at + |FlatExpr(SpineAt(e, k))|;
            && HasLeft(p) && GoodExpr(p, ts) && Spells(toks, here, Ts(Operator(p)) + Rest(p))
            && |FlatExpr(p)| == |FlatExpr(SpineAt(e, k))| + 1 + |Rest(p)|
            && TokAt(toks, here) == Plain(Operator(p)) && here < |toks|
            && Tight(e) <= Power(TokAt(toks, here)) <= Tail(SpineAt(e, k))
  {
    hide FlatExpr, GoodExpr, Tight, Tail, Rest, Power, HasLeft, Left, SpineAt;
    var p := SpineAt(e, k - 1);
    SpineStep(e, k - 1);
    SpineSpells(toks, at, e, k - 1);
    SpineGood(e, ts, k - 1);
    FlatLeft(p);
    SpellsBoth(toks, at, FlatExpr(Left(p)), Ts(Operator(p)) + Rest(p));
    SpellsToken(toks, at + |FlatExpr(Left(p))|, Operator(p), Rest(p));
    LeftPower(p, ts);
  }

  /** One turn of the loop. */
  lemma SpineGoes(toks: seq<Tok>, at: nat, e: Expr, ts: iset<string>, bp: nat, k: nat)
    requires ExprAt(toks, at, e, ts, bp) && 0 < k <= Depth(e)
    ensures var p, here := SpineAt(e, k - 1), at + |FlatExpr(SpineAt(e, k))|;
            && LedAt(toks, here, p, ts) && here < |toks| && Power(toks[here]) > bp
            && |FlatExpr(p)| == |FlatExpr(SpineAt(e, k))| + 1 + |Rest(p)|
  {
    hide FlatExpr, GoodExpr, Tight, Tail, Rest, Power, HasLeft, Left;
    SpineUp(toks, at, e, ts, k);
    SpineTail(toks, at, e, ts, k - 1);
  }

  /** The loop goes on exactly as long as there are operators above. */
  lemma SpineTurn(toks: seq<Tok>, at: nat, e: Expr, ts: iset<string>, bp: nat, k: nat)
    requires ExprAt(toks, at, e, ts, bp) && k <= Depth(e)
    ensures var here := at + |FlatExpr(SpineAt(e, k))|;
            && (Power(TokAt(toks, here)) > bp <==> k > 0) && (k == 0 ==> here == at + |FlatExpr(e)|)
            && (k > 0 ==> var p := SpineAt(e, k - 1);
                          && LedAt(toks, here, p, ts) && here < |toks|
                          && |FlatExpr(p)| == |FlatExpr(SpineAt(e, k))| + 1 + |Rest(p)|)
  {
    hide FlatExpr, GoodExpr, Tight, Tail, Rest, Power, HasLeft, Left, LedAt;
    if k > 0 {
      SpineGoes(toks, at, e, ts, bp, k);
    }
  }

  lemma InfixHere(toks: seq<Tok>, at: nat, e: Expr, ts: iset<string>)
    requires LedAt(toks, at, e, ts) && e.BinaryOp?
    ensures TokAt(toks, at) == Plain(e.op) && IsInfix(e.op)
    ensures ExprAt(toks, at + 1, e.r, ts, Rbp(e.op)) && |Rest(e)| == |FlatExpr(e.r)|
  {
    hide FlatExpr, GoodExpr, Tight, Power, IsInfix, Rbp;
    SpellsToken(toks, at, e.op, FlatExpr(e.r));
    RightPower(e, ts);
  }

  lemma ChoiceHere(toks: seq<Tok>, at: nat, e: Expr, ts: iset<string>)
    requires LedAt(toks, at, e, ts) && e.Choice?
    ensures TokAt(toks, at) == Plain(Question) && ExprAt(toks, at + 1, e.a, ts, 0)
    ensures var colon := at + 1 + |FlatExpr(e.a)|;
            && TokAt(toks, colon) == Plain(Colon) && ExprAt(toks, colon + 1, e.b, ts, Lbp(Question) - 1)
            && |Rest(e)| == |FlatExpr(e.a)| + 1 + |FlatExpr(e.b)|
  {
    hide FlatExpr, GoodExpr, Tight, Tail, Lbp, Within;
    ChoiceParts(e, ts);
    Closers();
    SpellsToken(toks, at, Question, Rest(e));
    SpellsBoth(toks, at + 1, FlatExpr(e.a), Ts(Colon) + FlatExpr(e.b));
    SpellsToken(toks, at + 1 + |FlatExpr(e.a)|, Colon, FlatExpr(e.b));
    TailAbove(e.a, ts);
    TailAbove(e.b, ts);
    WithinPower(e.b, ts, G.Conditional);
    Floors();
  }

  lemma ChoiceParts(e: Expr, ts: iset<string>)
    requires GoodExpr(e, ts) && e.Choice?
    ensures GoodExpr(e.a, ts) && GoodExpr(e.b, ts) && Within(e.b, G.Conditional) && Tail(e) == 29
  {
  }

  lemma Closers()
    ensures Lbp(RParen) == Lbp(RBracket) == Lbp(RBrace) == Lbp(Colon) == Lbp(Semicolon) == 0
    ensures Lbp(Comma) == 10 && Lbp(Question) == 30
  {
  }

  lemma Floors()
    ensures G.Floor(G.Expression) == 10 && G.Floor(G.Assignment) == 20 && G.Floor(G.Conditional) == 30
    ensures G.Floor(G.Unary) == G.Floor(G.Cast) == G.Floor(G.Postfixed) == 150
  {
  }

  lemma SubscriptHere(toks: seq<Tok>, at: nat, e: Expr, ts: iset<string>)
    requires LedAt(toks, at, e, ts) && e.Subscript?
    ensures TokAt(toks, at) == Plain(LBracket) && ExprAt(toks, at + 1, e.i, ts, 0)
    ensures TokAt(toks, at + 1 + |FlatExpr(e.i)|) == Plain(RBracket) && |Rest(e)| == |FlatExpr(e.i)| + 1
  {
    hide FlatExpr, GoodExpr, Tight, Tail, Lbp;
    Closers();
    assert GoodExpr(e.i, ts) by { SubscriptPart(e, ts); }
    SpellsToken(toks, at, LBracket, Rest(e));
    SpellsBoth(toks, at + 1, FlatExpr(e.i), Ts(RBracket));
    SpellsToken(toks, at + 1 + |FlatExpr(e.i)|, RBracket, []);
    TailAbove(e.i, ts);
  }

  lemma SubscriptPart(e: Expr, ts: iset<string>)
    requires GoodExpr(e, ts) && e.Subscript?
    ensures GoodExpr(e.i, ts)
  {
  }

  lemma SelectHere(toks: seq<Tok>, at: nat, e: Expr, ts: iset<string>)
    requires LedAt(toks, at, e, ts) && (e.Select? || e.After?)
    ensures TokAt(toks, at) == Plain(e.op)
    ensures if e.Select? then (e.op == Dot || e.op == Arrow) && TokAt(toks, at + 1) == Plain(Ident(e.x)) && |Rest(e)| == 1
            else (e.op == PlusPlus || e.op == MinusMinus) && |Rest(e)| == 0
  {
    hide FlatExpr, Tight, Tail, Lbp;
    SpellsToken(toks, at, e.op, Rest(e));
    if e.Select? {
      SpellsToken(toks, at + 1, Ident(e.x), []);
    }
  }

  /** Arguments up to the closing parenthesis. */
  ghost predicate ArgsAt(toks: seq<Tok>, at: nat, es: seq<Expr>, ts: iset<string>) {
    && Spells(toks, at, FlatArgs(es)) && TokAt(toks, at + |FlatArgs(es)|) == Plain(RParen)
    && forall i :: 0 <= i < |es| ==> GoodExpr(es[i], ts) && Within(es[i], G.Assignment)
  }

  lemma CallHere(toks: seq<Tok>, at: nat, e: Expr, ts: iset<string>)
    requires LedAt(toks, at, e, ts) && e.CallOf?
    ensures TokAt(toks, at) == Plain(LParen) && ArgsAt(toks, at + 1, e.args, ts) && |Rest(e)| == |FlatArgs(e.args)| + 1
  {
    hide FlatExpr, Tight, Tail, Lbp, FlatArgs, Within;
    SpellsToken(toks, at, LParen, Rest(e));
    SpellsBoth(toks, at + 1, FlatArgs(e.args), Ts(RParen));
    SpellsToken(toks, at + 1 + |FlatArgs(e.args)|, RParen, []);
  }

  /** The first argument, and the comma or the parenthesis after it. */
  lemma ArgsStep(toks: seq<Tok>, at: nat, es: seq<Expr>, ts: iset<string>)
    requires ArgsAt(toks, at, es, ts) && es != []
    ensures ExprAt(toks, at, es[0], ts, Lbp(Comma)) && TokAt(toks, at) != Plain(RParen)
    ensures var next := at + |FlatExpr(es[0])|;
            if |es| == 1 then TokAt(toks, next) == Plain(RParen) && |FlatArgs(es)| == |FlatExpr(es[0])|
            else && TokAt(toks, next) == Plain(Comma) && ArgsAt(toks, next + 1, es[1..], ts)
                 && |FlatArgs(es)| == |FlatExpr(es[0])| + 1 + |FlatArgs(es[1..])|
  {
    hide FlatExpr, FlatArgs, GoodExpr, Tight, Tail, Lbp, StartsExpr, Within, Power, Spells;
    var e := es[0];
    ArgsText(es);
    SpellsBoth(toks, at, FlatExpr(e), if |es| == 1 then [] else Ts(Comma) + FlatArgs(es[1..]));
    if |es| > 1 {
      SpellsToken(toks, at + |FlatExpr(e)|, Comma, FlatArgs(es[1..]));
    }
    ArgumentAt(toks, at, e, ts);
  }

  lemma ArgsFirst(toks: seq<Tok>, at: nat, es: seq<Expr>, ts: iset<string>)
    requires ArgsAt(toks, at, es, ts)
    ensures es == [] <==> TokAt(toks, at) == Plain(RParen)
    ensures es == [] ==> FlatArgs(es) == []
    ensures TokAt(toks, at + |FlatArgs(es)|) == Plain(RParen)
  {
    hide Within, GoodExpr, FlatExpr, Tight, ExprAt;
    if es != [] {
      ArgsStep(toks, at, es, ts);
    }
  }

  lemma ArgsText(es: seq<Expr>)
    requires es != []
    ensures FlatArgs(es) == FlatExpr(es[0]) + (if |es| == 1 then [] else Ts(Comma) + FlatArgs(es[1..]))
  {
    hide FlatExpr;
  }

  lemma ArgumentAt(toks: seq<Tok>, at: nat, e: Expr, ts: iset<string>)
    requires Spells(toks, at, FlatExpr(e)) && GoodExpr(e, ts) && Within(e, G.Assignment)
    requires TokAt(toks, at + |FlatExpr(e)|) == Plain(Comma) || TokAt(toks, at + |FlatExpr(e)|) == Plain(RParen)
    ensures ExprAt(toks, at, e, ts, Lbp(Comma)) && TokAt(toks, at) != Plain(RParen)
  {
    hide FlatExpr, GoodExpr, Tight, Tail, Lbp, StartsExpr, Within;
    Closers();
    ExprFirst(e, ts);
    StartsNeither(FlatExpr(e)[0], ts);
    SpellsFirst(toks, at, FlatExpr(e));
    WithinPower(e, ts, G.Assignment);
    Floors();
    TailAbove(e, ts);
  }

  // ----- operands -----

  ghost predicate TypeAt(toks: seq<Tok>, at: nat, ty: CType, ts: iset<string>) {
    Spells(toks, at, FlatType(ty)) && GoodType(ty, ts) && TokAt(toks, at + |FlatType(ty)|) == Plain(RParen)
  }

  ghost predicate BracesAt(toks: seq<Tok>, at: nat, b: Braces, ts: iset<string>) {
    Spells(toks, at, FlatBraces(b)) && GoodBraces(b, ts)
  }

  lemma LeafHere(toks: seq<Tok>, at: nat, e: Expr, ts: iset<string>)
    requires NudAt(toks, at, e, ts) && e.Leaf?
    ensures TokAt(toks, at) == Plain(e.t) && IsAtom(e.t) && |FlatExpr(e)| == 1 && at < |toks|
  {
    SpellsToken(toks, at, e.t, []);
  }

  lemma UnaryHere(toks: seq<Tok>, at: nat, e: Expr, ts: iset<string>)
    requires NudAt(toks, at, e, ts) && e.UnaryOp?
    ensures TokAt(toks, at) == Plain(e.op) && IsPrefix(e.op) && !IsAtom(e.op) && e.op != LParen
    ensures ExprAt(toks, at + 1, e.e, ts, PREFIX) && |FlatExpr(e)| == 1 + |FlatExpr(e.e)|
  {
    UnaryParts(e, ts);
    hide GoodExpr, Tight, Lbp, Within, IsPrefix, IsAtom;
    SpellsToken(toks, at, e.op, FlatExpr(e.e));
    assert FlatExpr(e) == Ts(e.op) + FlatExpr(e.e);
    OperandOf(e, e.e, ts);
  }

  lemma UnaryParts(e: Expr, ts: iset<string>)
    requires GoodExpr(e, ts) && e.UnaryOp?
    ensures IsPrefix(e.op) && !IsAtom(e.op) && e.op != LParen
    ensures GoodExpr(e.e, ts) && (Within(e.e, G.Unary) || Within(e.e, G.Cast))
  {
  }

  /** The operand of a prefix form, in powers. */
  lemma OperandOf(e: Expr, x: Expr, ts: iset<string>)
    requires e.UnaryOp? || e.CastTo? || e.SizeofExpr?
    requires GoodExpr(x, ts) && (Within(x, G.Unary) || Within(x, G.Cast))
    ensures Tail(e) == PREFIX < Tight(x) && Tail(x) >= PREFIX
  {
    hide FlatExpr, Tight, Within;
    Floors();
    if Within(x, G.Unary) {
      WithinPower(x, ts, G.Unary);
    } else {
      WithinPower(x, ts, G.Cast);
    }
    TailAbove(x, ts);
  }

  lemma GroupHere(toks: seq<Tok>, at: nat, e: Expr, ts: iset<string>)
    requires NudAt(toks, at, e, ts) && e.Group?
    ensures TokAt(toks, at) == Plain(LParen) && ExprAt(toks, at + 1, e.e, ts, 0)
    ensures TokAt(toks, at + 1 + |FlatExpr(e.e)|) == Plain(RParen) && |FlatExpr(e)| == |FlatExpr(e.e)| + 2
  {
    hide FlatExpr, GoodExpr, Tight, Tail;
    GroupParts(e, ts);
    InParens(toks, at, e.e, ts);
  }

  lemma GroupParts(e: Expr, ts: iset<string>)
    requires GoodExpr(e, ts) && e.Group?
    ensures FlatExpr(e) == Ts(LParen) + (FlatExpr(e.e) + Ts(RParen)) && GoodExpr(e.e, ts)
  {
  }

  /** `( e )` */
  lemma InParens(toks: seq<Tok>, at: nat, e: Expr, ts: iset<string>)
    requires Spells(toks, at, Ts(LParen) + (FlatExpr(e) + Ts(RParen))) && GoodExpr(e, ts)
    ensures TokAt(toks, at) == Plain(LParen) && ExprAt(toks, at + 1, e, ts, 0)
    ensures TokAt(toks, at + 1 + |FlatExpr(e)|) == Plain(RParen)
    ensures |Ts(LParen) + (FlatExpr(e) + Ts(RParen))| == |FlatExpr(e)| + 2
  {
    hide FlatExpr, GoodExpr, Tight, Tail, Lbp;
    Closers();
    SpellsToken(toks, at, LParen, FlatExpr(e) + Ts(RParen));
    SpellsBoth(toks, at + 1, FlatExpr(e), Ts(RParen));
    SpellsToken(toks, at + 1 + |FlatExpr(e)|, RParen, []);
    TailAbove(e, ts);
  }

  /** `( type )`, and what comes after it. */
  lemma TypeParens(toks: seq<Tok>, at: nat, ty: CType, rest: seq<Tok>, ts: iset<string>)
    requires Spells(toks, at, Ts(LParen) + (FlatType(ty) + (Ts(RParen) + rest))) && GoodType(ty, ts)
    ensures TokAt(toks, at) == Plain(LParen) && TypeAt(toks, at + 1, ty, ts)
    ensures Spells(toks, at + 1 + |FlatType(ty)| + 1, rest)
    ensures |Ts(LParen) + (FlatType(ty) + (Ts(RParen) + rest))| == |FlatType(ty)| + 2 + |rest|
  {
    hide FlatType, GoodType;
    SpellsToken(toks, at, LParen, FlatType(ty) + (Ts(RParen) + rest));
    SpellsBoth(toks, at + 1, FlatType(ty), Ts(RParen) + rest);
    SpellsToken(toks, at + 1 + |FlatType(ty)|, RParen, rest);
  }

  lemma CastHere(toks: seq<Tok>, at: nat, e: Expr, ts: iset<string>)
    requires NudAt(toks, at, e, ts) && e.CastTo?
    ensures TokAt(toks, at) == Plain(LParen) && TypeAt(toks, at + 1, e.ty, ts)
    ensures var next := at + 1 + |FlatType(e.ty)| + 1;
            && ExprAt(toks, next, e.e, ts, PREFIX) && TokAt(toks, next) != Plain(LBrace)
            && |FlatExpr(e)| == |FlatType(e.ty)| + 2 + |FlatExpr(e.e)|
  {
    hide FlatExpr, GoodExpr, FlatType, GoodType, Within, Tail, ExprAt, TypeAt, Spells, Power, TokAt;
    NudSpells(toks, at, e, ts);
    CastParts(e, ts);
    TypeParens(toks, at, e.ty, FlatExpr(e.e), ts);
    PrefixOperand(toks, at + 1 + |FlatType(e.ty)| + 1, e, e.e, ts);
  }

  lemma NudSpells(toks: seq<Tok>, at: nat, e: Expr, ts: iset<string>)
    requires NudAt(toks, at, e, ts)
    ensures Spells(toks, at, FlatExpr(e)) && GoodExpr(e, ts) && Power(TokAt(toks, at + |FlatExpr(e)|)) <= Tail(e)
  {
  }

  /** The operand of a prefix form, where it stands. */
  lemma PrefixOperand(toks: seq<Tok>, at: nat, e: Expr, x: Expr, ts: iset<string>)
    requires e.UnaryOp? || e.CastTo? || e.SizeofExpr?
    requires GoodExpr(x, ts) && (Within(x, G.Unary) || Within(x, G.Cast))
    requires Spells(toks, at, FlatExpr(x)) && Power(TokAt(toks, at + |FlatExpr(x)|)) <= Tail(e)
    ensures ExprAt(toks, at, x, ts, PREFIX) && TokAt(toks, at) != Plain(LBrace)
  {
    hide FlatExpr, GoodExpr, Tight, Within, StartsExpr, Power, Spells, TokAt, Tail;
    OperandOf(e, x, ts);
    ExprFirst(x, ts);
    StartsNeither(FlatExpr(x)[0], ts);
    SpellsFirst(toks, at, FlatExpr(x));
  }

  lemma CastParts(e: Expr, ts: iset<string>)
    requires GoodExpr(e, ts) && e.CastTo?
    ensures FlatExpr(e) == Ts(LParen) + (FlatType(e.ty) + (Ts(RParen) + FlatExpr(e.e)))
    ensures GoodType(e.ty, ts) && GoodExpr(e.e, ts) && Within(e.e, G.Cast)
  {
    hide FlatType, GoodType, Within;
  }

  lemma CompoundParts(e: Expr, ts: iset<string>)
    requires GoodExpr(e, ts) && e.Compound?
    ensures FlatExpr(e) == Ts(LParen) + (FlatType(e.ty) + (Ts(RParen) + FlatBraces(e.body)))
    ensures GoodType(e.ty, ts) && GoodBraces(e.body, ts)
  {
    hide FlatType, GoodType, FlatBraces, GoodBraces;
  }

  lemma CompoundHere(toks: seq<Tok>, at: nat, e: Expr, ts: iset<string>)
    requires NudAt(toks, at, e, ts) && e.Compound?
    ensures TokAt(toks, at) == Plain(LParen) && TypeAt(toks, at + 1, e.ty, ts)
    ensures var next := at + 1 + |FlatType(e.ty)| + 1;
            && BracesAt(toks, next, e.body, ts) && TokAt(toks, next) == Plain(LBrace)
            && |FlatExpr(e)| == |FlatType(e.ty)| + 2 + |FlatBraces(e.body)|
  {
    hide FlatExpr, GoodExpr, FlatType, GoodType, GoodBraces, FlatItems;
    CompoundParts(e, ts);
    TypeParens(toks, at, e.ty, FlatBraces(e.body), ts);
    SpellsToken(toks, at + 1 + |FlatType(e.ty)| + 1, LBrace, FlatItems(e.body.items, e.body.trailing) + Ts(RBrace));
  }

  lemma SizeofExprHere(toks: seq<Tok>, at: nat, e: Expr, ts: iset<string>)
    requires NudAt(toks, at, e, ts) && e.SizeofExpr?
    ensures TokAt(toks, at) == Key(Sizeof) && |FlatExpr(e)| == 1 + |FlatExpr(e.e)|
    ensures ExprAt(toks, at + 1, e.e, ts, PREFIX) && TokAt(toks, at + 1) != Plain(LParen)
  {
    hide FlatExpr, GoodExpr, Tight, Within, StartsExpr;
    SizeofExprParts(e, ts);
    SpellsKey(toks, at, Sizeof, FlatExpr(e.e));
    OperandOf(e, e.e, ts);
    SpellsFirst(toks, at + 1, FlatExpr(e.e));
  }

  lemma SizeofExprParts(e: Expr, ts: iset<string>)
    requires GoodExpr(e, ts) && e.SizeofExpr?
    ensures FlatExpr(e) == Ks(Sizeof) + FlatExpr(e.e) && GoodExpr(e.e, ts) && Within(e.e, G.Unary)
    ensures FlatExpr(e.e) != [] && FlatExpr(e.e)[0] != Plain(LParen)
  {
    hide Within, StartsExpr;
    ExprFirst(e.e, ts);
    assert FlatExpr(e.e)[..1] == [FlatExpr(e.e)[0]];
  }

  lemma SizeofGroupHere(toks: seq<Tok>, at: nat, e: Expr, ts: iset<string>)
    requires NudAt(toks, at, e, ts) && e.SizeofGroup?
    ensures TokAt(toks, at) == Key(Sizeof) && TokAt(toks, at + 1) == Plain(LParen) && ExprAt(toks, at + 2, e.e, ts, 0)
    ensures TokAt(toks, at + 2 + |FlatExpr(e.e)|) == Plain(RParen) && |FlatExpr(e)| == 3 + |FlatExpr(e.e)|
  {
    hide FlatExpr, GoodExpr, Tight, Tail;
    SizeofGroupParts(e, ts);
    SpellsKey(toks, at, Sizeof, Ts(LParen) + (FlatExpr(e.e) + Ts(RParen)));
    InParens(toks, at + 1, e.e, ts);
  }

  lemma SizeofGroupParts(e: Expr, ts: iset<string>)
    requires GoodExpr(e, ts) && e.SizeofGroup?
    ensures FlatExpr(e) == Ks(Sizeof) + (Ts(LParen) + (FlatExpr(e.e) + Ts(RParen))) && GoodExpr(e.e, ts)
  {
  }

  lemma TypeOfHere(toks: seq<Tok>, at: nat, e: Expr, ts: iset<string>)
    requires NudAt(toks, at, e, ts) && (e.SizeofType? || e.AlignofType?)
    ensures TokAt(toks, at) == Key(if e.SizeofType? then Sizeof else Alignof)
    ensures TokAt(toks, at + 1) == Plain(LParen) && TypeAt(toks, at + 2, e.ty, ts)
    ensures |FlatExpr(e)| == 3 + |FlatType(e.ty)|
  {
    hide FlatExpr, GoodExpr, FlatType, GoodType;
    var k := if e.SizeofType? then Sizeof else Alignof;
    TypeOfParts(e, ts);
    SpellsKey(toks, at, k, Ts(LParen) + (FlatType(e.ty) + Ts(RParen)));
    assert Ts(RParen) + [] == Ts(RParen);
    TypeParens(toks, at + 1, e.ty, [], ts);
  }

  lemma TypeOfParts(e: Expr, ts: iset<string>)
    requires GoodExpr(e, ts) && (e.SizeofType? || e.AlignofType?)
    ensures FlatExpr(e) == Ks(if e.SizeofType? then Sizeof else Alignof) + (Ts(LParen) + (FlatType(e.ty) + Ts(RParen)))
    ensures GoodType(e.ty, ts)
  {
    hide FlatType, GoodType;
  }

  /** The first token tells the forms apart. */
  lemma NudKind(toks: seq<Tok>, at: nat, e: Expr, ts: iset<string>)
    requires NudAt(toks, at, e, ts)
    ensures at < |toks| && |FlatExpr(e)| >= 1
    ensures match e
            case Leaf(t) => toks[at] == Plain(t) && IsAtom(t) && t != LParen && |FlatExpr(e)| == 1
            case UnaryOp(op, _) => toks[at] == Plain(op) && IsPrefix(op) && !IsAtom(op) && op != LParen
            case AlignofType(_) => toks[at] == Key(Alignof)
            case SizeofExpr(_) => toks[at] == Key(Sizeof)
            case SizeofGroup(_) => toks[at] == Key(Sizeof)
            case SizeofType(_) => toks[at] == Key(Sizeof)
            case Group(_) => toks[at] == Plain(LParen)
            case CastTo(_, _) => toks[at] == Plain(LParen)
            case Compound(_, _) => toks[at] == Plain(LParen)
            case _ => false
  {
    hide NudAt, FlatExpr, GoodExpr, Tight, Tail, FlatType, GoodType, GoodBraces, FlatBraces;
    assert !HasLeft(e) by { NudBase(toks, at, e, ts); }
    match e
    case Leaf(t) => LeafHere(toks, at, e, ts);
    case UnaryOp(op, _) => UnaryHere(toks, at, e, ts);
    case AlignofType(_) => TypeOfHere(toks, at, e, ts);
    case SizeofExpr(_) => SizeofExprHere(toks, at, e, ts);
    case SizeofGroup(_) => SizeofGroupHere(toks, at, e, ts);
    case SizeofType(_) => TypeOfHere(toks, at, e, ts);
    case Group(_) => GroupHere(toks, at, e, ts);
    case CastTo(_, _) => CastHere(toks, at, e, ts);
    case Compound(_, _) => CompoundHere(toks, at, e, ts);
    case _ =>
  }

  lemma NudBase(toks: seq<Tok>, at: nat, e: Expr, ts: iset<string>)
    requires NudAt(toks, at, e, ts)
    ensures !HasLeft(e)
  {
  }

  /** Likewise for what comes after the first operand. */
  lemma LedKind(toks: seq<Tok>, at: nat, e: Expr, ts: iset<string>)
    requires LedAt(toks, at, e, ts)
    ensures at < |toks|
    ensures match e
            case BinaryOp(op, _, _) => toks[at] == Plain(op) && IsInfix(op)
            case Choice(_, _, _) => toks[at] == Plain(Question)
            case CallOf(_, _) => toks[at] == Plain(LParen)
            case Subscript(_, _) => toks[at] == Plain(LBracket)
            case Select(_, op, _) => toks[at] == Plain(op) && (op == Dot || op == Arrow)
            case After(_, op) => toks[at] == Plain(op) && (op == PlusPlus || op == MinusMinus)
            case _ => false
  {
    hide LedAt, FlatExpr, GoodExpr, Tight, Tail, Rest, IsInfix, ExprAt, ArgsAt;
    assert HasLeft(e) by { LedBase(toks, at, e, ts); }
    match e
    case BinaryOp(_, _, _) => InfixHere(toks, at, e, ts);
    case Choice(_, _, _) => ChoiceHere(toks, at, e, ts);
    case CallOf(_, _) => CallHere(toks, at, e, ts);
    case Subscript(_, _) => SubscriptHere(toks, at, e, ts);
    case Select(_, _, _) => SelectHere(toks, at, e, ts);
    case After(_, _) => SelectHere(toks, at, e, ts);
  }

  lemma LedBase(toks: seq<Tok>, at: nat, e: Expr, ts: iset<string>)
    requires LedAt(toks, at, e, ts)
    ensures HasLeft(e)
  {
  }

  lemma TypeStarts(toks: seq<Tok>, at: nat, ty: CType, ts: iset<string>)
    requires TypeAt(toks, at, ty, ts)
    ensures StartsDeclaration(TokAt(toks, at), ts) && TokAt(toks, at + |FlatType(ty)|) == Plain(RParen)
  {
    hide FlatSpecs, FlatDeclarator, StartsDeclaration, GoodType, GoodSpecs;
    assert GoodSpecs(ty.specs, ts) by { TypeSpecs(ty, ts); }
    SpecsFirst(ty.specs, ts);
    assert FlatType(ty)[0] == FlatSpecs(ty.specs)[0];
    SpellsFirst(toks, at, FlatType(ty));
  }

  lemma TypeSpecs(ty: CType, ts: iset<string>)
    requires GoodType(ty, ts)
    ensures GoodSpecs(ty.specs, ts) && AfterSpecs(ty.specs, ts) == ts && GoodDeclarator(ty.d, ts) && Declared(ty.d).None?
  {
  }
}
