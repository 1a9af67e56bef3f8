/**
 How an operator-precedence loop meets an expression: from its leftmost operand up the left spine,
 one operator at a time. The binding powers on the way are those the grammar's levels call for.
 */
module Spine {
  import opened Wrappers
  import opened Pratt
  import opened Syntax
  import G = CGrammar

  /** The power of the outermost operator, as seen from the left. */
  function Tight(e: Expr): int {
    G.Floor(LevelOf(e))
  }

  /** The power that is open at the right edge: an operator above it would be taken in. */
  function Tail(e: Expr): int {
    match e
    case BinaryOp(op, _, _) => if IsInfix(op) then Rbp(op) else 0
    case Choice(_, _, _) => 29
    case UnaryOp(_, _) => 140
    case CastTo(_, _) => 140
    case SizeofExpr(_) => 140
    case _ => TOP
  }

  predicate HasLeft(e: Expr) {
    e.BinaryOp? || e.Choice? || e.CallOf? || e.Subscript? || e.Select? || e.After?
  }

  /** The operand that comes first. */
  function Left(e: Expr): (r: Expr)
    requires HasLeft(e)
    ensures r < e
  {
    match e
    case BinaryOp(_, l, _) => l
    case Choice(c, _, _) => c
    case CallOf(f, _) => f
    case Subscript(x, _) => x
    case Select(x, _, _) => x
    case After(x, _) => x
  }

  /** The operator after it. */
  function Operator(e: Expr): Token
    requires HasLeft(e)
  {
    match e
    case BinaryOp(op, _, _) => op
    case Choice(_, _, _) => Question
    case CallOf(_, _) => LParen
    case Subscript(_, _) => LBracket
    case Select(_, op, _) => op
    case After(_, op) => op
  }

  /** What comes after the operator. */
  function Rest(e: Expr): seq<Tok>
    requires HasLeft(e)
  {
    match e
    case BinaryOp(_, _, r) => FlatExpr(r)
    case Choice(_, a, b) => FlatExpr(a) + (Ts(Colon) + FlatExpr(b))
    case CallOf(_, args) => FlatArgs(args) + Ts(RParen)
    case Subscript(_, i) => FlatExpr(i) + Ts(RBracket)
    case Select(_, _, x) => Ts(Ident(x))
    case After(_, _) => []
  }

  lemma FlatLeft(e: Expr)
    requires HasLeft(e)
    ensures FlatExpr(e) == FlatExpr(Left(e)) + (Ts(Operator(e)) + Rest(e))
  {
    if e.After? {
      assert Ts(e.op) + [] == Ts(e.op);
    }
  }

  /** How many operators the left spine has. */
  function Depth(e: Expr): nat
    decreases e
  {
    if HasLeft(e) then 1 + Depth(Left(e)) else 0
  }

  /** The expression `k` steps down the spine. */
  function SpineAt(e: Expr, k: nat): Expr
    requires k <= Depth(e)
    decreases k
  {
    if k == 0 then e else SpineAt(Left(e), k - 1)
  }

  lemma {:induction false} SpineStep(e: Expr, k: nat)
    requires k < Depth(e)
    ensures HasLeft(SpineAt(e, k)) && Left(SpineAt(e, k)) == SpineAt(e, k + 1)
    decreases k
  {
    if k > 0 {
      SpineStep(Left(e), k - 1);
    }
  }

  lemma {:induction false} SpineBottom(e: Expr)
    ensures !HasLeft(SpineAt(e, Depth(e)))
    decreases e
  {
    if HasLeft(e) {
      SpineBottom(Left(e));
    }
  }

  // ----- levels and powers -----

  lemma FloorIs(n: G.Level)
    ensures G.Floor(n) == if G.Rank(n) <= 3 then 150 else 170 - 10 * G.Rank(n)
    ensures G.LeftAssociative(n) ==> G.Rank(G.Tighter(n)) == G.Rank(n) - 1
    ensures G.Rank(G.Expression) == 16 && G.Rank(G.Assignment) == 15 && G.Rank(G.Conditional) == 14
    ensures G.Rank(G.LogicalOr) == 13 && G.Rank(G.Cast) == 3 && G.Rank(G.Unary) == 2 && G.Rank(G.Postfixed) == 1
    ensures G.Rank(n) == 14 <==> n == G.Conditional
    ensures G.Rank(n) == 15 <==> n == G.Assignment
    ensures G.Rank(n) == 0 <==> n == G.Primary
  {
  }

  /** The numbers of an expression's level. */
  predicate Numbers(e: Expr) {
    var r := G.Rank(LevelOf(e));
    && Tight(e) == (if r <= 3 then 150 else 170 - 10 * r)
    && (e.BinaryOp? ==>
          && IsInfix(e.op) && 4 <= r <= 16 && r != 14 && Lbp(e.op) == Tight(e)
          && Rbp(e.op) == if r == 15 then 19 else Tight(e))
    && (e.Choice? ==> r == 14)
    && (!e.BinaryOp? && !e.Choice? ==> r <= 3)
    && (e.UnaryOp? || e.CastTo? || e.SizeofExpr? ==> 2 <= r)
  }

  lemma LevelNumbers(e: Expr, ts: iset<string>)
    requires GoodExpr(e, ts)
    ensures Numbers(e)
  {
    hide G.LevelOf, Lbp, IsInfix, IsAssign, G.Floor, G.Rank, G.Tighter, FlatExpr;
    FloorIs(LevelOf(e));
    if e.BinaryOp? {
      OperatorNumbers(e.op);
    }
  }

  lemma OperatorNumbers(op: Token)
    requires G.LevelOf(op) != G.Primary
    ensures var r := G.Rank(G.LevelOf(op));
            && IsInfix(op) && 4 <= r <= 16 && r != 14 && Lbp(op) == 170 - 10 * r
            && Rbp(op) == if r == 15 then 19 else 170 - 10 * r
  {
    hide G.LevelOf, Lbp, IsInfix, IsAssign, G.Floor;
    G.LevelPower(op);
    FloorIs(G.LevelOf(op));
  }

  /** What follows a tree at its tightest may be taken in only by its last operand. */
  lemma TailAbove(e: Expr, ts: iset<string>)
    requires GoodExpr(e, ts)
    ensures Tail(e) >= Min(140, Tight(e) - 1) && Tight(e) >= 10 && Tail(e) >= 9
  {
    hide G.LevelOf, Lbp, Rbp, IsInfix, IsAssign, G.Floor, G.Rank, LevelOf, GoodExpr;
    LevelNumbers(e, ts);
  }

  /** An expression that can stand where level `n` is asked for binds at least as tightly. */
  lemma WithinPower(e: Expr, ts: iset<string>, n: G.Level)
    requires GoodExpr(e, ts) && Within(e, n)
    ensures Tight(e) >= G.Floor(n)
  {
    hide G.LevelOf, Lbp, Rbp, IsInfix, IsAssign, G.Floor, G.Rank, LevelOf, GoodExpr;
    LevelNumbers(e, ts);
    FloorIs(n);
  }

  lemma LeftOperand(e: Expr, ts: iset<string>)
    requires HasLeft(e) && GoodExpr(e, ts)
    ensures GoodExpr(Left(e), ts) && Within(Left(e), LeftLevel(e))
    ensures !e.BinaryOp? ==> Lbp(Operator(e)) == if e.Choice? then 30 else 150
  {
    hide G.LevelOf, LevelOf, Within, FlatExpr, G.Tighter;
  }

  /** The level that the first operand must have. */
  function LeftLevel(e: Expr): G.Level
    requires HasLeft(e)
  {
    match e
    case BinaryOp(op, _, _) => if G.LevelOf(op) == G.Assignment then G.Conditional else G.LevelOf(op)
    case Choice(_, _, _) => G.LogicalOr
    case _ => G.Postfixed
  }

  /** One step up the spine: the operator's power is that of the expression, and nothing below takes it in. */
  lemma LeftPower(e: Expr, ts: iset<string>)
    requires HasLeft(e) && GoodExpr(e, ts)
    ensures GoodExpr(Left(e), ts) && Tight(Left(e)) >= Tight(e)
    ensures Power(Plain(Operator(e))) == Tight(e) <= Tail(Left(e))
  {
    hide G.LevelOf, Lbp, Rbp, IsInfix, IsAssign, G.Floor, G.Rank, GoodExpr;
    LeftOperand(e, ts);
    LevelNumbers(e, ts);
    LevelNumbers(Left(e), ts);
    FloorIs(LevelOf(e));
    FloorIs(LevelOf(Left(e)));
    FloorIs(LeftLevel(e));
  }

  function Power(t: Tok): nat {
    if t.Plain? then Lbp(t.t) else 0
  }

  lemma {:induction false} SpineGood(e: Expr, ts: iset<string>, k: nat)
    requires GoodExpr(e, ts) && k <= Depth(e)
    ensures GoodExpr(SpineAt(e, k), ts) && Tight(SpineAt(e, k)) >= Tight(e)
    decreases k
  {
    hide GoodExpr, Tight;
    if k > 0 {
      LeftPower(e, ts);
      SpineGood(Left(e), ts, k - 1);
    }
  }

  /** The right operand of an infix operator binds more tightly than the power it is parsed with. */
  lemma RightPower(e: Expr, ts: iset<string>)
    requires e.BinaryOp? && GoodExpr(e, ts)
    ensures IsInfix(e.op) && GoodExpr(e.r, ts) && Tight(e.r) > Rbp(e.op) == Tail(e) && Tail(e.r) >= Rbp(e.op)
  {
    hide Lbp, Rbp, IsInfix, IsAssign, G.Floor, G.Rank, G.LevelOf, FlatExpr;
    LevelNumbers(e, ts);
    LevelNumbers(e.r, ts);
    TailAbove(e.r, ts);
    FloorIs(LevelOf(e));
    FloorIs(LevelOf(e.r));
  }
}
