/**
 The expression grammar of C99 section 6.5, one production per level, as a predicate on concrete
 trees; casts, `sizeof` and compound literals are left out as in `Pratt`. The parser accepts exactly
 the texts of a grammar that differs in one place: the left operand of an assignment may be any
 conditional expression, where C asks for a unary one.
 */
module CGrammar {
  import opened Pratt

  datatype Level =
    | Expression | Assignment | Conditional | LogicalOr | LogicalAnd | InclusiveOr | ExclusiveOr | And
    | Equality | Relational | Shift | Additive | Multiplicative | Cast | Unary | Postfixed | Primary

  /** The levels from the loosest to the tightest; each production falls back on the next one. */
  function Tighter(n: Level): Level {
    match n
    case Expression => Assignment
    case Assignment => Conditional
    case Conditional => LogicalOr
    case LogicalOr => LogicalAnd
    case LogicalAnd => InclusiveOr
    case InclusiveOr => ExclusiveOr
    case ExclusiveOr => And
    case And => Equality
    case Equality => Relational
    case Relational => Shift
    case Shift => Additive
    case Additive => Multiplicative
    case Multiplicative => Cast
    case Cast => Unary
    case Unary => Postfixed
    case Postfixed => Primary
    case Primary => Primary
  }

  function Rank(n: Level): nat {
    match n
    case Expression => 16
    case Assignment => 15
    case Conditional => 14
    case LogicalOr => 13
    case LogicalAnd => 12
    case InclusiveOr => 11
    case ExclusiveOr => 10
    case And => 9
    case Equality => 8
    case Relational => 7
    case Shift => 6
    case Additive => 5
    case Multiplicative => 4
    case Cast => 3
    case Unary => 2
    case Postfixed => 1
    case Primary => 0
  }

  /** The operators of the levels that associate to the left. */
  function Operators(n: Level): set<Token> {
    match n
    case Expression => {Comma}
    case LogicalOr => {OrOr}
    case LogicalAnd => {AndAnd}
    case InclusiveOr => {Pipe}
    case ExclusiveOr => {Caret}
    case And => {Amp}
    case Equality => {EqEq, NotEq}
    case Relational => {Less, Greater, LessEq, GreaterEq}
    case Shift => {LShift, RShift}
    case Additive => {Plus, Minus}
    case Multiplicative => {Star, Slash, Percent}
    case _ => {}
  }

  const ASSIGNMENTS := {Assign, StarAssign, SlashAssign, PercentAssign, PlusAssign, MinusAssign, LShiftAssign,
                        RShiftAssign, AmpAssign, CaretAssign, PipeAssign}

  const UNARY_OPERATORS := {Amp, Star, Plus, Minus, Tilde, Bang}

  /**
   Level `n` derives `t`, in C's grammar if `strict`, and otherwise in the one that takes any
   conditional expression on the left of an assignment.
   */
  predicate Derives(n: Level, t: Tree, strict: bool)
    decreases t, Rank(n)
  {
    match n
    case Primary =>
      || (t.Atom? && (t.tok.Ident? || t.tok.IntLit? || t.tok.FloatLit? || t.tok.CharLit? || t.tok.StrLit?))
      || (t.Paren? && Derives(Expression, t.e, strict))
    case Postfixed =>
      || Derives(Primary, t, strict)
      || (t.Index? && Derives(Postfixed, t.base, strict) && Derives(Expression, t.i, strict))
      || (t.Call? && Derives(Postfixed, t.f, strict)
          && forall i :: 0 <= i < |t.args| ==> Derives(Assignment, t.args[i], strict))
      || (t.Member? && (t.op == Dot || t.op == Arrow) && Derives(Postfixed, t.base, strict))
      || (t.Postfix? && (t.op == PlusPlus || t.op == MinusMinus) && Derives(Postfixed, t.e, strict))
    case Unary =>
      || Derives(Postfixed, t, strict)
      || (t.Prefix? && (t.op == PlusPlus || t.op == MinusMinus) && Derives(Unary, t.e, strict))
      || (t.Prefix? && t.op in UNARY_OPERATORS && Derives(Cast, t.e, strict))
    case Cast => Derives(Unary, t, strict)
    case Conditional =>
      || Derives(LogicalOr, t, strict)
      || (t.Ternary? && Derives(LogicalOr, t.c, strict) && Derives(Expression, t.a, strict)
          && Derives(Conditional, t.b, strict))
    case Assignment =>
      || Derives(Conditional, t, strict)
      || (t.Infix? && t.op in ASSIGNMENTS && Derives(if strict then Unary else Conditional, t.l, strict)
          && Derives(Assignment, t.r, strict))
    case _ =>
      || Derives(Tighter(n), t, strict)
      || (t.Infix? && t.op in Operators(n) && Derives(n, t.l, strict) && Derives(Tighter(n), t.r, strict))
  }

  // ----- the levels and the powers of the parser -----

  /** The power of the operators of a level. */
  function Floor(n: Level): int {
    match n
    case Expression => 10
    case Assignment => 20
    case Conditional => 30
    case LogicalOr => 40
    case LogicalAnd => 50
    case InclusiveOr => 60
    case ExclusiveOr => 70
    case And => 80
    case Equality => 90
    case Relational => 100
    case Shift => 110
    case Additive => 120
    case Multiplicative => 130
    case _ => 150
  }

  /** A correct tree is at least as tight as level `n`. */
  predicate Fits(n: Level, t: Tree) {
    Correct(t) &&
    match n
    case Primary => t.Atom? || t.Paren?
    case Postfixed => Loosest(t) >= 150 && Open(t) >= 150
    case _ => Loosest(t) >= Floor(n)
  }

  predicate LeftAssociative(n: Level) {
    Rank(n) >= 4 && n != Assignment && n != Conditional
  }

  /** The level that has an operator. */
  function LevelOf(op: Token): Level {
    match op
    case Comma => Expression
    case Assign => Assignment
    case PlusAssign => Assignment
    case MinusAssign => Assignment
    case StarAssign => Assignment
    case SlashAssign => Assignment
    case PercentAssign => Assignment
    case AmpAssign => Assignment
    case PipeAssign => Assignment
    case CaretAssign => Assignment
    case LShiftAssign => Assignment
    case RShiftAssign => Assignment
    case OrOr => LogicalOr
    case AndAnd => LogicalAnd
    case Pipe => InclusiveOr
    case Caret => ExclusiveOr
    case Amp => And
    case EqEq => Equality
    case NotEq => Equality
    case Less => Relational
    case LessEq => Relational
    case Greater => Relational
    case GreaterEq => Relational
    case LShift => Shift
    case RShift => Shift
    case Plus => Additive
    case Minus => Additive
    case Star => Multiplicative
    case Slash => Multiplicative
    case Percent => Multiplicative
    case _ => Primary
  }

  lemma LevelPower(op: Token)
    ensures IsInfix(op) <==> LevelOf(op) != Primary
    ensures IsInfix(op) ==> Lbp(op) == Floor(LevelOf(op))
    ensures IsAssign(op) <==> LevelOf(op) == Assignment
    ensures LevelOf(op) == Primary || LevelOf(op) == Assignment || LeftAssociative(LevelOf(op))
  {
    hide LevelOf, Lbp, IsInfix, IsAssign, Floor, Rank;
    PowerOfLevel(op);
    KindOfLevel(op);
    AssignLevel(op);
  }

  lemma PowerOfLevel(op: Token)
    ensures IsInfix(op) <==> LevelOf(op) != Primary
    ensures IsInfix(op) ==> Lbp(op) == Floor(LevelOf(op))
  {
  }

  lemma KindOfLevel(op: Token)
    ensures LevelOf(op) == Primary || LevelOf(op) == Assignment || LeftAssociative(LevelOf(op))
  {
  }

  lemma AssignLevel(op: Token)
    ensures IsAssign(op) <==> LevelOf(op) == Assignment
  {
  }

  lemma LevelOperator(n: Level, op: Token)
    requires LeftAssociative(n)
    ensures op in Operators(n) <==> LevelOf(op) == n
  {
    hide Operators, LevelOf;
    if Rank(n) >= 9 {
      LogicalOperator(n, op);
    } else {
      ArithmeticOperator(n, op);
    }
  }

  lemma LogicalOperator(n: Level, op: Token)
    requires LeftAssociative(n) && Rank(n) >= 9
    ensures op in Operators(n) <==> LevelOf(op) == n
  {
  }

  lemma ArithmeticOperator(n: Level, op: Token)
    requires LeftAssociative(n) && Rank(n) < 9
    ensures op in Operators(n) <==> LevelOf(op) == n
  {
  }

  lemma LevelAssignment(op: Token)
    ensures op in ASSIGNMENTS <==> LevelOf(op) == Assignment
  {
  }

  lemma OperatorLevel(n: Level, op: Token)
    ensures LeftAssociative(n) ==> (op in Operators(n) <==> IsInfix(op) && Lbp(op) == Floor(n) && Rbp(op) == Floor(n))
    ensures op in ASSIGNMENTS <==> IsInfix(op) && Lbp(op) == 20 && Rbp(op) == 19
  {
    hide Operators, LevelOf, Lbp, IsInfix, IsAssign;
    LevelPower(op);
    LevelAssignment(op);
    if LeftAssociative(n) {
      LevelOperator(n, op);
    }
  }

  lemma NextFloor(n: Level)
    requires LeftAssociative(n)
    ensures Rank(Tighter(n)) == Rank(n) - 1 && (Tighter(n).Cast? || Rank(Tighter(n)) >= 4)
    ensures Floor(Tighter(n)) == Floor(n) + if n.Multiplicative? then 20 else 10
  {
  }

  /** The power of an infix operator or of a ternary is that of some level. */
  lemma HeadPowers(t: Tree)
    requires Correct(t)
    ensures Loosest(t) == HeadLbp(t) && Open(t) == HeadOpen(t)
    ensures match t
            case Infix(op, _, _) =>
              && IsInfix(op) && Loosest(t) == Lbp(op) && Open(t) == Rbp(op)
              && Rbp(op) == (if Lbp(op) == 20 then 19 else Lbp(op))
              && Lbp(op) <= 130 && Lbp(op) % 10 == 0 && Lbp(op) >= 10 && Lbp(op) != 30
            case Ternary(_, _, _) => Loosest(t) == 30 && Open(t) == 29
            case Prefix(_, _) => Loosest(t) == TOP && Open(t) == 140
            case Missing => false
            case Atom(_) => Loosest(t) == TOP && Open(t) == TOP
            case Paren(_) => Loosest(t) == TOP && Open(t) == TOP
            case _ => Loosest(t) == 150 && Open(t) == TOP
  {
    hide Loosest, Open, Flatten;
    Heads(t);
    if t.Infix? {
      InfixOf(t);
      InfixPowers(t.op);
    }
  }

  lemma InfixPowers(op: Token)
    requires IsInfix(op)
    ensures Rbp(op) == if Lbp(op) == 20 then 19 else Lbp(op)
    ensures Lbp(op) <= 130 && Lbp(op) % 10 == 0 && Lbp(op) >= 10 && Lbp(op) != 30
  {
    hide LevelOf, Lbp, IsInfix, IsAssign;
    LevelPower(op);
  }

  /** The grammar, level by level, is precedence and associativity. */
  lemma {:induction false} DerivesIs(n: Level, t: Tree)
    ensures Derives(n, t, false) <==> Fits(n, t)
    decreases t, Rank(n), 1
  {
    hide Derives, Fits;
    match n
    case Primary => PrimaryIs(t);
    case Postfixed => PostfixedIs(t);
    case Unary => UnaryIs(t);
    case Cast => CastIs(t);
    case Conditional => ConditionalIs(t);
    case Assignment => AssignmentIs(t);
    case _ => BinaryIs(n, t);
  }

  lemma {:induction false} PrimaryIs(t: Tree)
    ensures Derives(Primary, t, false) <==> Fits(Primary, t)
    decreases t, Rank(Primary), 0
  {
    hide Loosest, Open, Flatten;
    if t.Paren? {
      DerivesIs(Expression, t.e);
      if Correct(t.e) {
        LoosestPositive(t.e);
      }
    }
  }

  /** What the operands of the productions may be, in powers. */
  lemma OperandPowers(t: Tree)
    ensures Correct(t) ==> Loosest(t) >= 10
    ensures Correct(t) && Open(t) >= 150 ==> Loosest(t) >= 150
    ensures Correct(t) ==> (Loosest(t) > 10 <==> Loosest(t) >= 20)
    ensures Correct(t) ==> (Loosest(t) > 19 <==> Loosest(t) >= 20)
    ensures Correct(t) ==> (Loosest(t) > 29 <==> Loosest(t) >= 30)
    ensures Correct(t) ==> (Loosest(t) > 140 <==> Loosest(t) >= 150)
    ensures Correct(t) ==> (Open(t) >= 20 <==> Loosest(t) >= 30)
    ensures Correct(t) ==> (Open(t) >= 30 <==> Loosest(t) >= 40)
  {
    hide Loosest, Open, Flatten, Correct;
    if Correct(t) {
      HeadPowers(t);
    }
  }

  lemma {:induction false} PostfixedIs(t: Tree)
    ensures Derives(Postfixed, t, false) <==> Fits(Postfixed, t)
    decreases t, Rank(Postfixed), 0
  {
    hide Loosest, Open, Flatten, Correct;
    DerivesIs(Primary, t);
    if Correct(t) {
      HeadPowers(t);
    }
    match t
    case Index(b, i) =>
      IndexNode(b, i);
      DerivesIs(Postfixed, b);
      DerivesIs(Expression, i);
      OperandPowers(i);
      OperandPowers(b);
    case Call(f, args) =>
      CallNode(f, args);
      DerivesIs(Postfixed, f);
      OperandPowers(f);
      forall i | 0 <= i < |args|
        ensures Derives(Assignment, args[i], false) <==> Correct(args[i]) && Loosest(args[i]) > 10
      {
        DerivesIs(Assignment, args[i]);
        OperandPowers(args[i]);
      }
    case Member(b, op, x) =>
      MemberNode(b, op, x);
      DerivesIs(Postfixed, b);
      OperandPowers(b);
    case Postfix(op, e) =>
      PostfixNode(op, e);
      DerivesIs(Postfixed, e);
      OperandPowers(e);
    case _ =>
  }

  lemma {:induction false} UnaryIs(t: Tree)
    ensures Derives(Unary, t, false) <==> Fits(Unary, t)
    decreases t, Rank(Unary), 0
  {
    hide Loosest, Open, Flatten, Correct;
    DerivesIs(Postfixed, t);
    if Correct(t) {
      HeadPowers(t);
    }
    if t.Prefix? {
      PrefixNode(t.op, t.e);
      DerivesIs(Unary, t.e);
      DerivesIs(Cast, t.e);
      OperandPowers(t.e);
    }
  }

  lemma {:induction false} CastIs(t: Tree)
    ensures Derives(Cast, t, false) <==> Fits(Cast, t)
    decreases t, Rank(Cast), 0
  {
    hide Loosest, Open, Correct;
    DerivesIs(Unary, t);
  }

  lemma {:induction false} ConditionalIs(t: Tree)
    ensures Derives(Conditional, t, false) <==> Fits(Conditional, t)
    decreases t, Rank(Conditional), 0
  {
    hide Loosest, Open, Flatten, Correct;
    DerivesIs(LogicalOr, t);
    if Correct(t) {
      HeadPowers(t);
    }
    if t.Ternary? {
      QuestionPower();
      TernaryNode(t.c, t.a, t.b);
      DerivesIs(LogicalOr, t.c);
      DerivesIs(Expression, t.a);
      DerivesIs(Conditional, t.b);
      OperandPowers(t.c);
      OperandPowers(t.a);
      OperandPowers(t.b);
    }
  }

  lemma {:induction false} AssignmentIs(t: Tree)
    ensures Derives(Assignment, t, false) <==> Fits(Assignment, t)
    decreases t, Rank(Assignment), 0
  {
    hide Loosest, Open, Flatten, Correct, Lbp, Rbp, IsInfix;
    DerivesIs(Conditional, t);
    if Correct(t) {
      HeadPowers(t);
    }
    if t.Infix? {
      OperatorLevel(Assignment, t.op);
      if IsInfix(t.op) {
        InfixNode(t.op, t.l, t.r);
      }
      DerivesIs(Conditional, t.l);
      DerivesIs(Assignment, t.r);
      OperandPowers(t.l);
      OperandPowers(t.r);
    }
  }

  lemma {:induction false} BinaryIs(n: Level, t: Tree)
    requires LeftAssociative(n)
    ensures Derives(n, t, false) <==> Fits(n, t)
    decreases t, Rank(n), 0
  {
    hide Loosest, Open, Flatten, Correct, Lbp, Rbp, IsInfix, Derives, Operators, Floor, Fits;
    NextFloor(n);
    DerivesIs(Tighter(n), t);
    if t.Infix? {
      DerivesIs(n, t.l);
      DerivesIs(Tighter(n), t.r);
    }
    BinaryStep(n, t);
  }

  /** Correctness at a level, given that of the operands. */
  lemma BinaryStep(n: Level, t: Tree)
    requires LeftAssociative(n) && (Derives(Tighter(n), t, false) <==> Fits(Tighter(n), t))
    requires t.Infix? ==> (Derives(n, t.l, false) <==> Fits(n, t.l))
    requires t.Infix? ==> (Derives(Tighter(n), t.r, false) <==> Fits(Tighter(n), t.r))
    ensures Derives(n, t, false) <==> Fits(n, t)
  {
    hide Derives, Fits, Operators;
    BinaryDerives(n, t, false);
    BinaryFits(n, t);
  }

  lemma BinaryDerives(n: Level, t: Tree, strict: bool)
    requires LeftAssociative(n)
    ensures Derives(n, t, strict) <==>
            || Derives(Tighter(n), t, strict)
            || (t.Infix? && t.op in Operators(n) && Derives(n, t.l, strict) && Derives(Tighter(n), t.r, strict))
  {
    hide Operators;
  }

  lemma BinaryFits(n: Level, t: Tree)
    requires LeftAssociative(n)
    ensures Fits(n, t) <==>
            || Fits(Tighter(n), t)
            || (t.Infix? && t.op in Operators(n) && Fits(n, t.l) && Fits(Tighter(n), t.r))
  {
    hide Fits, Loosest, Open, Flatten, Correct, Lbp, Rbp, IsInfix, Operators, Floor;
    BinaryHead(n, t);
    if t.Infix? && t.op in Operators(n) {
      BinaryNode(n, t);
    }
  }

  lemma BinaryHead(n: Level, t: Tree)
    requires LeftAssociative(n)
    ensures Fits(n, t) <==> Fits(Tighter(n), t) || (Correct(t) && t.Infix? && t.op in Operators(n))
  {
    hide Loosest, Open, Flatten, Correct, Lbp, Rbp, IsInfix, Operators, Floor;
    NextFloor(n);
    FloorTens(n);
    if Correct(t) {
      HeadPowers(t);
    }
    if t.Infix? {
      OperatorLevel(n, t.op);
    }
  }

  lemma BinaryNode(n: Level, t: Tree)
    requires LeftAssociative(n) && t.Infix? && t.op in Operators(n)
    ensures Correct(t) <==> Fits(n, t.l) && Fits(Tighter(n), t.r)
  {
    hide Loosest, Open, Flatten, Correct, Lbp, Rbp, IsInfix, Operators, Floor;
    NextFloor(n);
    FloorTens(n);
    OperatorLevel(n, t.op);
    InfixNode(t.op, t.l, t.r);
    if Correct(t.l) {
      HeadPowers(t.l);
    }
    if Correct(t.r) {
      HeadPowers(t.r);
    }
  }

  lemma FloorTens(n: Level)
    requires LeftAssociative(n)
    ensures Floor(n) % 10 == 0 && 10 <= Floor(n) <= 130 && Floor(n) != 20 && Floor(n) != 30
    ensures n.Multiplicative? <==> Floor(n) == 130
    ensures !n.Primary? && !n.Postfixed? && !Tighter(n).Primary? && !Tighter(n).Postfixed?
  {
  }

  // ----- C's own grammar -----

  /** The left operand of every assignment is neither an infix expression nor a conditional. */
  predicate UnaryTargets(t: Tree) {
    match t
    case Paren(e) => UnaryTargets(e)
    case Prefix(_, e) => UnaryTargets(e)
    case Infix(op, l, r) =>
      (op in ASSIGNMENTS ==> !l.Infix? && !l.Ternary?) && UnaryTargets(l) && UnaryTargets(r)
    case Ternary(c, a, b) => UnaryTargets(c) && UnaryTargets(a) && UnaryTargets(b)
    case Call(f, args) => UnaryTargets(f) && forall i :: 0 <= i < |args| ==> UnaryTargets(args[i])
    case Index(b, i) => UnaryTargets(b) && UnaryTargets(i)
    case Member(b, _, _) => UnaryTargets(b)
    case Postfix(_, e) => UnaryTargets(e)
    case _ => true
  }

  /** What is derived at all but is no infix expression and no conditional is derived as a unary expression. */
  lemma UnaryHead(t: Tree)
    ensures Derives(Unary, t, false) <==> Derives(Conditional, t, false) && !t.Infix? && !t.Ternary?
  {
    hide Derives, Loosest, Open, Flatten, Correct;
    DerivesIs(Unary, t);
    DerivesIs(Conditional, t);
    if Correct(t) {
      HeadPowers(t);
    }
  }

  /** C derives the trees of the looser grammar whose assignments have unary targets. */
  lemma {:induction false} StrictIs(n: Level, t: Tree)
    ensures Derives(n, t, true) <==> Derives(n, t, false) && UnaryTargets(t)
    decreases t, Rank(n), 1
  {
    hide Derives, UnaryTargets;
    if n == Postfixed {
      StrictPostfixed(t);
    } else if Rank(n) <= 3 {
      StrictTight(n, t);
    } else if n == Conditional || n == Assignment {
      StrictMiddle(n, t);
    } else {
      StrictBinary(n, t);
    }
  }

  lemma {:induction false} StrictTight(n: Level, t: Tree)
    requires Rank(n) <= 3 && n != Postfixed
    ensures Derives(n, t, true) <==> Derives(n, t, false) && UnaryTargets(t)
    decreases t, Rank(n), 0
  {
    match n
    case Primary =>
      if t.Paren? { StrictIs(Expression, t.e); }
    case Unary =>
      StrictIs(Postfixed, t);
      if t.Prefix? {
        StrictIs(Unary, t.e);
        StrictIs(Cast, t.e);
      }
    case Cast => StrictIs(Unary, t);
  }

  lemma {:induction false} StrictPostfixed(t: Tree)
    ensures Derives(Postfixed, t, true) <==> Derives(Postfixed, t, false) && UnaryTargets(t)
    decreases t, Rank(Postfixed), 0
  {
    StrictIs(Primary, t);
    match t
    case Index(b, i) =>
      StrictIs(Postfixed, b);
      StrictIs(Expression, i);
    case Call(f, args) =>
      StrictIs(Postfixed, f);
      forall i | 0 <= i < |args|
        ensures Derives(Assignment, args[i], true) <==> Derives(Assignment, args[i], false) && UnaryTargets(args[i])
      {
        StrictIs(Assignment, args[i]);
      }
    case Member(b, _, _) => StrictIs(Postfixed, b);
    case Postfix(_, e) => StrictIs(Postfixed, e);
    case _ =>
  }

  lemma {:induction false} StrictMiddle(n: Level, t: Tree)
    requires n == Conditional || n == Assignment
    ensures Derives(n, t, true) <==> Derives(n, t, false) && UnaryTargets(t)
    decreases t, Rank(n), 0
  {
    if n == Conditional {
      StrictIs(LogicalOr, t);
      if t.Ternary? {
        StrictIs(LogicalOr, t.c);
        StrictIs(Expression, t.a);
        StrictIs(Conditional, t.b);
      }
    } else {
      StrictIs(Conditional, t);
      if t.Infix? {
        StrictIs(Unary, t.l);
        UnaryHead(t.l);
        StrictIs(Assignment, t.r);
      }
    }
  }

  lemma {:induction false} StrictBinary(n: Level, t: Tree)
    requires LeftAssociative(n)
    ensures Derives(n, t, true) <==> Derives(n, t, false) && UnaryTargets(t)
    decreases t, Rank(n), 0
  {
    hide Derives, Operators, Floor, Lbp;
    NextFloor(n);
    FloorTens(n);
    StrictIs(Tighter(n), t);
    BinaryDerives(n, t, true);
    BinaryDerives(n, t, false);
    if t.Infix? {
      StrictIs(n, t.l);
      StrictIs(Tighter(n), t.r);
      OperatorLevel(n, t.op);
    }
  }

  // ----- the parser -----

  /**
   A text parses without errors to the tree `t` exactly when the grammar derives `t` with that text;
   so the text is accepted exactly when there is a derivation, and there is at most one.
   */
  lemma ParseDerives(toks: seq<Token>, t: Tree)
    ensures Parse(toks, 0) == Parsed(t, [], 0) <==> Derives(Expression, t, false) && Flatten(t) == toks
  {
    hide Parse, Derives, Flatten, Correct, Loosest, Open;
    DerivesIs(Expression, t);
    if Parse(toks, 0) == Parsed(t, [], 0) {
      ParseSound(toks, 0);
      assert Flatten(t) + [] == Flatten(t);
      LoosestPositive(t);
    }
    if Correct(t) && Flatten(t) == toks {
      ParseComplete(t);
    }
  }

  /** C's grammar derives a text exactly when it parses without errors to a tree with unary targets. */
  lemma StandardExact(toks: seq<Token>, t: Tree)
    ensures Derives(Expression, t, true) && Flatten(t) == toks <==> Parse(toks, 0) == Parsed(t, [], 0) && UnaryTargets(t)
  {
    hide Parse, Derives, Flatten, UnaryTargets;
    ParseDerives(toks, t);
    StrictIs(Expression, t);
  }

  /** `a + b = c` is accepted, and C's grammar does not derive it. */
  lemma LaxAssignment()
    ensures var toks := [Ident("a"), Plus, Ident("b"), Assign, Ident("c")];
            && Parse(toks, 0).errors == 0 && Parse(toks, 0).rest == []
            && forall t: Tree :: Flatten(t) == toks ==> !Derives(Expression, t, true)
  {
    hide Parse, Derives, Flatten, UnaryTargets;
    var toks := [Ident("a"), Plus, Ident("b"), Assign, Ident("c")];
    var t := LaxTree(toks);
    ParseDerives(toks, t);
    forall u: Tree | Flatten(u) == toks
      ensures !Derives(Expression, u, true)
    {
      StandardExact(toks, u);
    }
  }

  lemma LaxTree(toks: seq<Token>) returns (t: Tree)
    requires toks == [Ident("a"), Plus, Ident("b"), Assign, Ident("c")]
    ensures Derives(Expression, t, false) && Flatten(t) == toks && !UnaryTargets(t)
  {
    hide Derives, Correct, Loosest, Open, Flatten;
    var a, b, c := Atom(Ident("a")), Atom(Ident("b")), Atom(Ident("c"));
    Name("a");
    Name("b");
    Name("c");
    InfixNode(Plus, a, b);
    InfixNode(Assign, Infix(Plus, a, b), c);
    t := Infix(Assign, Infix(Plus, a, b), c);
    DerivesIs(Expression, t);
  }

  lemma Name(x: string)
    ensures var t := Atom(Ident(x)); Correct(t) && Loosest(t) == Open(t) == TOP && Flatten(t) == [Ident(x)]
  {
  }

  /** The level that a parse at power `bp` asks for: 10 for arguments, 20 for initializers, 140 for operands. */
  function LevelAbove(bp: nat): Level {
    if bp < 10 then Expression else if bp < 20 then Assignment else if bp < 30 then Conditional
    else if bp < 40 then LogicalOr else if bp < 50 then LogicalAnd else if bp < 60 then InclusiveOr
    else if bp < 70 then ExclusiveOr else if bp < 80 then And else if bp < 90 then Equality
    else if bp < 100 then Relational else if bp < 110 then Shift else if bp < 120 then Additive
    else if bp < 130 then Multiplicative else Cast
  }

  /** A parse without errors at any power has taken an expression of the level it asks for. */
  lemma ParseLevel(toks: seq<Token>, bp: nat)
    requires bp <= 140
    ensures var r := Parse(toks, bp);
            r.errors == 0 ==> Derives(LevelAbove(bp), r.tree, false) && toks == Flatten(r.tree) + r.rest
  {
    hide Parse, Derives, Flatten, Correct, Loosest, Open;
    ParseSound(toks, bp);
    var r := Parse(toks, bp);
    if r.errors == 0 {
      DerivesIs(LevelAbove(bp), r.tree);
      HeadPowers(r.tree);
    }
  }
}
