/**
 The expression parser with its error recovery, on cast-free and sizeof-free token streams in which
 no name is a type. `Parse` and its companions are the code as functions from the tokens left to
 the tree, the tokens left after it and the number of errors; `Parser` is the stateful code.

 A concrete tree records parentheses and unary plus; `Erase` gives the tree the compiler keeps.
 */
module Pratt {
  import opened Wrappers

  datatype Token =
    | IntLit(val: int) | FloatLit(text: string) | CharLit(val: int) | StrLit(text: string) | Ident(name: string)
    | Comma
    | Assign | PlusAssign | MinusAssign | StarAssign | SlashAssign | PercentAssign
    | AmpAssign | PipeAssign | CaretAssign | LShiftAssign | RShiftAssign
    | Question | Colon
    | OrOr | AndAnd | Pipe | Caret | Amp | EqEq | NotEq | Less | LessEq | Greater | GreaterEq
    | LShift | RShift | Plus | Minus | Star | Slash | Percent
    | Bang | Tilde
    | LParen | RParen | LBracket | RBracket | Dot | Arrow | PlusPlus | MinusMinus
    | Semicolon | LBrace | RBrace

  datatype Tree =
    | Atom(tok: Token)
    | Missing
    | Paren(e: Tree)
    | Prefix(op: Token, e: Tree)
    | Infix(op: Token, l: Tree, r: Tree)
    | Ternary(c: Tree, a: Tree, b: Tree)
    | Call(f: Tree, args: seq<Tree>)
    | Index(base: Tree, i: Tree)
    | Member(base: Tree, op: Token, name: string)
    | Postfix(op: Token, e: Tree)

  const PREFIX := 140

  predicate IsAssign(t: Token) {
    || t == Assign || t == PlusAssign || t == MinusAssign || t == StarAssign || t == SlashAssign || t == PercentAssign
    || t == AmpAssign || t == PipeAssign || t == CaretAssign || t == LShiftAssign || t == RShiftAssign
  }

  /** Left binding powers; 0 does not continue an expression. */
  function Lbp(t: Token): (n: nat)
    ensures n <= 150
  {
    match t
    case Comma => 10
    case Assign => 20
    case PlusAssign => 20
    case MinusAssign => 20
    case StarAssign => 20
    case SlashAssign => 20
    case PercentAssign => 20
    case AmpAssign => 20
    case PipeAssign => 20
    case CaretAssign => 20
    case LShiftAssign => 20
    case RShiftAssign => 20
    case Question => 30
    case OrOr => 40
    case AndAnd => 50
    case Pipe => 60
    case Caret => 70
    case Amp => 80
    case EqEq => 90
    case NotEq => 90
    case Less => 100
    case LessEq => 100
    case Greater => 100
    case GreaterEq => 100
    case LShift => 110
    case RShift => 110
    case Plus => 120
    case Minus => 120
    case Star => 130
    case Slash => 130
    case Percent => 130
    case LParen => 150
    case LBracket => 150
    case Dot => 150
    case Arrow => 150
    case PlusPlus => 150
    case MinusMinus => 150
    case _ => 0
  }

  predicate IsAtom(t: Token) {
    t.IntLit? || t.FloatLit? || t.CharLit? || t.StrLit? || t.Ident?
  }

  predicate IsPrefix(t: Token) {
    t == Minus || t == Bang || t == Tilde || t == Amp || t == Star || t == Plus || t == PlusPlus || t == MinusMinus
  }

  /** Operators with one operand on each side. */
  predicate IsInfix(t: Token) {
    10 <= Lbp(t) < 150 && t != Question
  }

  /** The power its right operand is parsed with: assignment associates to the right. */
  function Rbp(t: Token): (n: nat)
    requires IsInfix(t)
  {
    if IsAssign(t) then Lbp(t) - 1 else Lbp(t)
  }

  // ----- the parser -----

  datatype Parsed = Parsed(tree: Tree, rest: seq<Token>, errors: nat)

  /** `expect`: a wrong token is reported and skipped, except at the end of the input. */
  function Expect(toks: seq<Token>, t: Token): (r: (seq<Token>, nat))
    ensures |r.0| <= |toks|
  {
    if toks == [] then ([], 1)
    else if toks[0] == t then (toks[1..], 0)
    else (toks[1..], 1)
  }

  function ExpectName(toks: seq<Token>): (r: (string, seq<Token>, nat))
    ensures |r.1| <= |toks|
  {
    if toks == [] then ("", [], 1)
    else if toks[0].Ident? then (toks[0].name, toks[1..], 0)
    else ("", toks[1..], 1)
  }

  function Parse(toks: seq<Token>, bp: nat): (r: Parsed)
    ensures |r.rest| <= |toks| && (toks != [] ==> |r.rest| < |toks|)
    decreases |toks|, 2
  {
    if toks == [] then Parsed(Missing, [], 1)
    else
      var left := Nud(toks[0], toks[1..]);
      Loop(left.tree, left.rest, left.errors, bp)
  }

  /** Infix and postfix operators that bind tighter than `bp`. */
  function Loop(left: Tree, toks: seq<Token>, errors: nat, bp: nat): (r: Parsed)
    ensures |r.rest| <= |toks|
    decreases |toks|, 1
  {
    if toks == [] || Lbp(toks[0]) <= bp then Parsed(left, toks, errors)
    else
      var q := Led(left, toks[0], toks[1..]);
      Loop(q.tree, q.rest, errors + q.errors, bp)
  }

  function Nud(t: Token, rest: seq<Token>): (r: Parsed)
    ensures |r.rest| <= |rest|
    decreases |rest| + 1, 0
  {
    if IsAtom(t) then Parsed(Atom(t), rest, 0)
    else if IsPrefix(t) then
      var q := Parse(rest, PREFIX);
      Parsed(Prefix(t, q.tree), q.rest, q.errors)
    else if t == LParen then
      var q := Parse(rest, 0);
      var (rest1, n) := Expect(q.rest, RParen);
      Parsed(Paren(q.tree), rest1, q.errors + n)
    else Parsed(Missing, rest, 1)
  }

  function Led(left: Tree, t: Token, rest: seq<Token>): (r: Parsed)
    ensures |r.rest| <= |rest|
    decreases |rest| + 1, 0
  {
    if IsInfix(t) then
      var q := Parse(rest, Rbp(t));
      Parsed(Infix(t, left, q.tree), q.rest, q.errors)
    else if t == Question then
      var a := Parse(rest, 0);
      var (rest1, n) := Expect(a.rest, Colon);
      var b := Parse(rest1, Lbp(Question) - 1);
      Parsed(Ternary(left, a.tree, b.tree), b.rest, a.errors + n + b.errors)
    else if t == LParen then
      if rest != [] && rest[0] == RParen then Parsed(Call(left, []), rest[1..], 0)
      else
        var (args, rest1, n) := Args(rest);
        var (rest2, m) := Expect(rest1, RParen);
        Parsed(Call(left, args), rest2, n + m)
    else if t == LBracket then
      var q := Parse(rest, 0);
      var (rest1, n) := Expect(q.rest, RBracket);
      Parsed(Index(left, q.tree), rest1, q.errors + n)
    else if t == Dot || t == Arrow then
      var (name, rest1, n) := ExpectName(rest);
      Parsed(Member(left, t, name), rest1, n)
    else if t == PlusPlus || t == MinusMinus then Parsed(Postfix(t, left), rest, 0)
    else Parsed(left, rest, 1)
  }

  /** One or more arguments, parsed above the comma. */
  function Args(toks: seq<Token>): (r: (seq<Tree>, seq<Token>, nat))
    ensures |r.1| <= |toks|
    decreases |toks|, 3
  {
    var q := Parse(toks, Lbp(Comma));
    if q.rest != [] && q.rest[0] == Comma then
      var (more, rest1, n) := Args(q.rest[1..]);
      ([q.tree] + more, rest1, q.errors + n)
    else ([q.tree], q.rest, q.errors)
  }

  // ----- concrete trees -----

  /** The tokens a tree stands for. */
  function Flatten(t: Tree): seq<Token> {
    match t
    case Atom(tok) => [tok]
    case Missing => []
    case Paren(e) => [LParen] + Flatten(e) + [RParen]
    case Prefix(op, e) => [op] + Flatten(e)
    case Infix(op, l, r) => Flatten(l) + ([op] + Flatten(r))
    case Ternary(c, a, b) => Flatten(c) + ([Question] + (Flatten(a) + ([Colon] + Flatten(b))))
    case Call(f, args) => Flatten(f) + ([LParen] + (FlattenArgs(args) + [RParen]))
    case Index(b, i) => Flatten(b) + ([LBracket] + (Flatten(i) + [RBracket]))
    case Member(b, op, x) => Flatten(b) + [op, Ident(x)]
    case Postfix(op, e) => Flatten(e) + [op]
  }

  function FlattenArgs(args: seq<Tree>): seq<Token> {
    if args == [] then []
    else if |args| == 1 then Flatten(args[0])
    else Flatten(args[0]) + ([Comma] + FlattenArgs(args[1..]))
  }

  const TOP := 1000

  function Min(a: int, b: int): int {
    if a < b then a else b
  }

  /** The loosest operator on the left spine: what decides whether a parser at a given power takes it all. */
  function Loosest(t: Tree): int {
    match t
    case Infix(op, l, _) => Min(Lbp(op), Loosest(l))
    case Ternary(c, _, _) => Min(Lbp(Question), Loosest(c))
    case Call(f, _) => Min(150, Loosest(f))
    case Index(b, _) => Min(150, Loosest(b))
    case Member(b, _, _) => Min(150, Loosest(b))
    case Postfix(_, e) => Min(150, Loosest(e))
    case _ => TOP
  }

  /** The lowest power still open at the right edge: an operator that binds tighter would be taken in. */
  function Open(t: Tree): int {
    match t
    case Prefix(_, e) => Min(PREFIX, Open(e))
    case Infix(op, _, r) => Min(if IsInfix(op) then Rbp(op) else 0, Open(r))
    case Ternary(_, _, b) => Min(Lbp(Question) - 1, Open(b))
    case _ => TOP
  }

  /** Every node respects precedence and associativity. */
  predicate Correct(t: Tree) {
    match t
    case Atom(tok) => IsAtom(tok)
    case Missing => false
    case Paren(e) => Correct(e)
    case Prefix(op, e) => IsPrefix(op) && Correct(e) && Loosest(e) > PREFIX
    case Infix(op, l, r) =>
      IsInfix(op) && Correct(l) && Correct(r) && Lbp(op) <= Open(l) && Loosest(r) > Rbp(op)
    case Ternary(c, a, b) =>
      Correct(c) && Correct(a) && Correct(b) && Lbp(Question) <= Open(c) && Loosest(b) > Lbp(Question) - 1
    case Call(f, args) =>
      Correct(f) && 150 <= Open(f) && forall i :: 0 <= i < |args| ==> Correct(args[i]) && Loosest(args[i]) > Lbp(Comma)
    case Index(b, i) => Correct(b) && Correct(i) && 150 <= Open(b)
    case Member(b, op, _) => Correct(b) && 150 <= Open(b) && (op == Dot || op == Arrow)
    case Postfix(op, e) => Correct(e) && 150 <= Open(e) && (op == PlusPlus || op == MinusMinus)
  }

  /** What follows does not continue an expression at power `m`. */
  predicate Stops(toks: seq<Token>, m: int) {
    toks == [] || Lbp(toks[0]) <= m
  }

  lemma {:induction false} LoosestPositive(t: Tree)
    requires Correct(t)
    ensures Loosest(t) >= 10
    decreases t
  {
    match t
    case Infix(_, l, _) => LoosestPositive(l);
    case Ternary(c, _, _) => LoosestPositive(c);
    case Call(f, _) => LoosestPositive(f);
    case Index(b, _) => LoosestPositive(b);
    case Member(b, _, _) => LoosestPositive(b);
    case Postfix(_, e) => LoosestPositive(e);
    case _ =>
  }

  // ----- soundness -----

  /** What a parse at power `bp` without errors has established. */
  predicate Sound(toks: seq<Token>, bp: int, r: Parsed) {
    r.errors == 0 ==>
      && toks == Flatten(r.tree) + r.rest && Correct(r.tree) && Loosest(r.tree) > bp
      && Stops(r.rest, bp) && Stops(r.rest, Open(r.tree))
  }

  lemma {:induction false} ParseSound(toks: seq<Token>, bp: nat)
    requires bp <= PREFIX
    ensures Sound(toks, bp, Parse(toks, bp))
    decreases |toks|, 2
  {
    if toks != [] {
      var left := Nud(toks[0], toks[1..]);
      NudSound(toks[0], toks[1..]);
      LoopSound(left.tree, left.rest, left.errors, bp);
      assert toks == [toks[0]] + toks[1..];
    }
  }

  lemma {:induction false} LoopSound(left: Tree, toks: seq<Token>, errors: nat, bp: nat)
    requires bp <= PREFIX
    requires errors == 0 ==> Correct(left) && Loosest(left) > bp && Stops(toks, Open(left))
    ensures Loop(left, toks, errors, bp).errors >= errors
    ensures Sound(Flatten(left) + toks, bp, Loop(left, toks, errors, bp))
    decreases |toks|, 1
  {
    hide Correct, Loosest, Open, Flatten, Led;
    if toks != [] && Lbp(toks[0]) > bp {
      var t, rest := toks[0], toks[1..];
      var q := Led(left, t, rest);
      assert toks == [t] + rest;
      if errors == 0 {
        LedSound(left, t, rest, bp);
      }
      LoopSound(q.tree, q.rest, errors + q.errors, bp);
    }
  }

  /** A tree that starts an expression, and what is left. */
  predicate NudOk(t: Token, rest: seq<Token>, r: Parsed) {
    r.errors == 0 ==>
      [t] + rest == Flatten(r.tree) + r.rest && Correct(r.tree) && Loosest(r.tree) == TOP && Stops(r.rest, Open(r.tree))
  }

  lemma {:induction false} NudSound(t: Token, rest: seq<Token>)
    ensures NudOk(t, rest, Nud(t, rest))
    decreases |rest| + 1, 0
  {
    hide Correct, Stops;
    if IsAtom(t) {
      assert NudOk(t, rest, Nud(t, rest)) by { AtomSound(t, rest); }
    } else if IsPrefix(t) {
      ParseSound(rest, PREFIX);
      PrefixSound(t, rest, Parse(rest, PREFIX));
    } else if t == LParen {
      ParseSound(rest, 0);
      ParenSound(rest, Parse(rest, 0));
    }
  }

  lemma AtomSound(t: Token, rest: seq<Token>)
    requires IsAtom(t)
    ensures NudOk(t, rest, Nud(t, rest))
  {
  }

  lemma PrefixSound(t: Token, rest: seq<Token>, q: Parsed)
    requires IsPrefix(t) && Sound(rest, PREFIX, q)
    ensures NudOk(t, rest, Parsed(Prefix(t, q.tree), q.rest, q.errors))
  {
    if q.errors == 0 {
      assert [t] + rest == [t] + Flatten(q.tree) + q.rest;
    }
  }

  lemma ParenSound(rest: seq<Token>, q: Parsed)
    requires Sound(rest, 0, q)
    ensures var (rest1, n) := Expect(q.rest, RParen); NudOk(LParen, rest, Parsed(Paren(q.tree), rest1, q.errors + n))
  {
    var (rest1, n) := Expect(q.rest, RParen);
    if q.errors + n == 0 {
      assert q.rest == [RParen] + rest1;
      assert [LParen] + rest == [LParen] + Flatten(q.tree) + [RParen] + rest1;
    }
  }

  predicate LedOk(left: Tree, t: Token, rest: seq<Token>, bp: int, r: Parsed) {
    r.errors == 0 ==>
      && Flatten(left) + ([t] + rest) == Flatten(r.tree) + r.rest
      && Correct(r.tree) && Loosest(r.tree) > bp && Stops(r.rest, Open(r.tree))
  }

  /** The tokens that continue an expression. */
  lemma LedPowers(t: Token)
    requires Lbp(t) > 0
    ensures Lbp(Question) == 30 && (IsInfix(t) ==> 0 <= Rbp(t) <= PREFIX)
    ensures IsInfix(t) || t == Question || Lbp(t) == 150
    ensures Lbp(t) == 150 ==> t in {LParen, LBracket, Dot, Arrow, PlusPlus, MinusMinus}
    ensures !IsInfix(Question) && (t == Question || Lbp(t) == 150 ==> !IsInfix(t))
  {
  }

  lemma {:induction false} LedSound(left: Tree, t: Token, rest: seq<Token>, bp: nat)
    requires Correct(left) && Loosest(left) > bp && bp < Lbp(t) <= Open(left)
    ensures LedOk(left, t, rest, bp, Led(left, t, rest))
    decreases |rest| + 1, 0
  {
    hide Correct, Stops, Flatten, Sound, LedOk, Loosest, Open, Parse, Args, Lbp, IsInfix, Expect, ExpectName;
    LedPowers(t);
    if IsInfix(t) {
      ParseSound(rest, Rbp(t));
      InfixSound(left, t, rest, bp, Parse(rest, Rbp(t)));
    } else if t == Question {
      ParseSound(rest, 0);
      var a := Parse(rest, 0);
      var (rest1, n) := Expect(a.rest, Colon);
      ParseSound(rest1, Lbp(Question) - 1);
      TernarySound(left, rest, bp, a, Parse(rest1, Lbp(Question) - 1));
    } else if t == LParen {
      if rest != [] && rest[0] == RParen {
        NoArgsSound(left, rest, bp);
      } else {
        ArgsSound(rest);
        CallSound(left, rest, bp);
      }
    } else if t == LBracket {
      ParseSound(rest, 0);
      IndexSound(left, rest, bp, Parse(rest, 0));
    } else if t == Dot || t == Arrow {
      MemberSound(left, t, rest, bp);
    } else {
      PostfixSound(left, t, rest, bp);
    }
  }

  lemma InfixSound(left: Tree, t: Token, rest: seq<Token>, bp: nat, q: Parsed)
    requires Correct(left) && Loosest(left) > bp && bp < Lbp(t) <= Open(left) && IsInfix(t) && Sound(rest, Rbp(t), q)
    ensures LedOk(left, t, rest, bp, Parsed(Infix(t, left, q.tree), q.rest, q.errors))
  {
    hide Correct, Loosest, Open, Flatten, Lbp, Rbp, IsInfix;
    if q.errors == 0 {
      InfixNode(t, left, q.tree);
      assert Flatten(left) + ([t] + rest) == Flatten(left) + ([t] + Flatten(q.tree)) + q.rest;
    }
  }

  lemma PostfixSound(left: Tree, t: Token, rest: seq<Token>, bp: nat)
    requires Correct(left) && Loosest(left) > bp && bp < 150 <= Open(left) && (t == PlusPlus || t == MinusMinus)
    ensures LedOk(left, t, rest, bp, Parsed(Postfix(t, left), rest, 0))
  {
    hide Correct, Loosest, Open, Flatten;
    PostfixNode(t, left);
    assert Flatten(left) + ([t] + rest) == Flatten(left) + [t] + rest;
  }

  lemma MemberSound(left: Tree, t: Token, rest: seq<Token>, bp: nat)
    requires Correct(left) && Loosest(left) > bp && bp < 150 <= Open(left) && (t == Dot || t == Arrow)
    ensures var (name, rest1, n) := ExpectName(rest); LedOk(left, t, rest, bp, Parsed(Member(left, t, name), rest1, n))
  {
    hide Correct, Loosest, Open, Flatten;
    var (name, rest1, n) := ExpectName(rest);
    if n == 0 {
      MemberNode(left, t, name);
      assert rest == [Ident(name)] + rest1;
      assert Flatten(left) + ([t] + rest) == Flatten(left) + [t, Ident(name)] + rest1;
    }
  }

  lemma Bracketed(l: seq<Token>, o: Token, x: seq<Token>, c: Token, r: seq<Token>)
    ensures l + ([o] + (x + ([c] + r))) == l + ([o] + (x + [c])) + r
  {
  }

  lemma Branches(l: seq<Token>, o: Token, x: seq<Token>, c: Token, y: seq<Token>, r: seq<Token>)
    ensures l + ([o] + (x + ([c] + (y + r)))) == l + ([o] + (x + ([c] + y))) + r
  {
  }

  // what each kind of node says, one step unfolded

  lemma PrefixNode(op: Token, e: Tree)
    ensures var t := Prefix(op, e);
            && (Correct(t) <==> IsPrefix(op) && Correct(e) && Loosest(e) > PREFIX)
            && Loosest(t) == TOP && Open(t) == Min(PREFIX, Open(e)) && Flatten(t) == [op] + Flatten(e)
  {
  }

  lemma InfixNode(op: Token, l: Tree, r: Tree)
    requires IsInfix(op)
    ensures var t := Infix(op, l, r);
            && (Correct(t) <==> Correct(l) && Correct(r) && Lbp(op) <= Open(l) && Loosest(r) > Rbp(op))
            && Loosest(t) == Min(Lbp(op), Loosest(l)) && Open(t) == Min(Rbp(op), Open(r))
            && Flatten(t) == Flatten(l) + ([op] + Flatten(r))
  {
  }

  lemma IndexNode(b: Tree, i: Tree)
    ensures var t := Index(b, i);
            && (Correct(t) <==> Correct(b) && Correct(i) && 150 <= Open(b))
            && Loosest(t) == Min(150, Loosest(b)) && Open(t) == TOP
            && Flatten(t) == Flatten(b) + ([LBracket] + (Flatten(i) + [RBracket]))
  {
  }

  lemma TernaryNode(c: Tree, a: Tree, b: Tree)
    ensures var t := Ternary(c, a, b);
            && (Correct(t) <==> Correct(c) && Correct(a) && Correct(b) && Lbp(Question) <= Open(c)
                                && Loosest(b) > Lbp(Question) - 1)
            && Loosest(t) == Min(Lbp(Question), Loosest(c)) && Open(t) == Min(Lbp(Question) - 1, Open(b))
            && Flatten(t) == Flatten(c) + ([Question] + (Flatten(a) + ([Colon] + Flatten(b))))
  {
  }

  predicate Arguments(args: seq<Tree>) {
    forall i :: 0 <= i < |args| ==> Correct(args[i]) && Loosest(args[i]) > Lbp(Comma)
  }

  lemma CallNode(f: Tree, args: seq<Tree>)
    ensures var t := Call(f, args);
            && (Correct(t) <==> Correct(f) && 150 <= Open(f) && Arguments(args))
            && Loosest(t) == Min(150, Loosest(f)) && Open(t) == TOP
            && Flatten(t) == Flatten(f) + ([LParen] + (FlattenArgs(args) + [RParen]))
  {
  }

  lemma MemberNode(b: Tree, op: Token, name: string)
    ensures var t := Member(b, op, name);
            && (Correct(t) <==> Correct(b) && 150 <= Open(b) && (op == Dot || op == Arrow))
            && Loosest(t) == Min(150, Loosest(b)) && Open(t) == TOP && Flatten(t) == Flatten(b) + [op, Ident(name)]
  {
  }

  lemma PostfixNode(op: Token, e: Tree)
    ensures var t := Postfix(op, e);
            && (Correct(t) <==> Correct(e) && 150 <= Open(e) && (op == PlusPlus || op == MinusMinus))
            && Loosest(t) == Min(150, Loosest(e)) && Open(t) == TOP && Flatten(t) == Flatten(e) + [op]
  {
  }

  lemma IndexSound(left: Tree, rest: seq<Token>, bp: nat, q: Parsed)
    requires Correct(left) && Loosest(left) > bp && bp < 150 <= Open(left) && Sound(rest, 0, q)
    ensures var (rest1, n) := Expect(q.rest, RBracket);
            LedOk(left, LBracket, rest, bp, Parsed(Index(left, q.tree), rest1, q.errors + n))
  {
    hide Correct, Loosest, Open, Flatten;
    var (rest1, n) := Expect(q.rest, RBracket);
    if q.errors + n == 0 {
      assert q.rest == [RBracket] + rest1;
      IndexNode(left, q.tree);
      Bracketed(Flatten(left), LBracket, Flatten(q.tree), RBracket, rest1);
    }
  }

  lemma TernarySound(left: Tree, rest: seq<Token>, bp: nat, a: Parsed, b: Parsed)
    requires Correct(left) && Loosest(left) > bp && bp < Lbp(Question) <= Open(left)
    requires Sound(rest, 0, a) && Sound(Expect(a.rest, Colon).0, Lbp(Question) - 1, b)
    ensures LedOk(left, Question, rest, bp,
                  Parsed(Ternary(left, a.tree, b.tree), b.rest, a.errors + Expect(a.rest, Colon).1 + b.errors))
  {
    hide Correct, Loosest, Open, Flatten;
    var (rest1, n) := Expect(a.rest, Colon);
    if a.errors + n + b.errors == 0 {
      assert a.rest == [Colon] + rest1;
      TernaryNode(left, a.tree, b.tree);
      Branches(Flatten(left), Question, Flatten(a.tree), Colon, Flatten(b.tree), b.rest);
    }
  }

  lemma NoArgsSound(left: Tree, rest: seq<Token>, bp: nat)
    requires Correct(left) && Loosest(left) > bp && bp < 150 <= Open(left) && rest != [] && rest[0] == RParen
    ensures LedOk(left, LParen, rest, bp, Parsed(Call(left, []), rest[1..], 0))
  {
    hide Correct, Loosest, Open, Flatten;
    assert FlattenArgs([]) == [];
    assert rest == [] + ([RParen] + rest[1..]);
    CallNode(left, []);
    Bracketed(Flatten(left), LParen, [], RParen, rest[1..]);
  }

  predicate ArgsOk(toks: seq<Token>, args: seq<Tree>, rest: seq<Token>, n: nat) {
    n == 0 ==>
      |args| >= 1 && toks == FlattenArgs(args) + rest && Arguments(args)
  }

  lemma CallSound(left: Tree, rest: seq<Token>, bp: nat)
    requires Correct(left) && Loosest(left) > bp && bp < 150 <= Open(left)
    requires ArgsOk(rest, Args(rest).0, Args(rest).1, Args(rest).2)
    ensures var (args, rest1, n) := Args(rest);
            var (rest2, m) := Expect(rest1, RParen);
            LedOk(left, LParen, rest, bp, Parsed(Call(left, args), rest2, n + m))
  {
    hide Args, FlattenArgs, Correct, Loosest, Open, Flatten;
    var (args, rest1, n) := Args(rest);
    var (rest2, m) := Expect(rest1, RParen);
    if n + m == 0 {
      assert rest1 == [RParen] + rest2;
      CallNode(left, args);
      Bracketed(Flatten(left), LParen, FlattenArgs(args), RParen, rest2);
    }
  }

  lemma {:induction false} ArgsSound(toks: seq<Token>)
    ensures ArgsOk(toks, Args(toks).0, Args(toks).1, Args(toks).2)
    decreases |toks|, 3
  {
    ParseSound(toks, Lbp(Comma));
    var q := Parse(toks, Lbp(Comma));
    if q.rest != [] && q.rest[0] == Comma {
      ArgsSound(q.rest[1..]);
      var (more, rest1, n) := Args(q.rest[1..]);
      if q.errors + n == 0 {
        assert q.rest == [Comma] + q.rest[1..];
        assert ([q.tree] + more)[1..] == more;
        assert toks == Flatten(q.tree) + ([Comma] + FlattenArgs(more)) + rest1;
      }
    }
  }

  // ----- completeness -----

  lemma {:induction false} FlattenNonempty(t: Tree)
    requires Correct(t)
    ensures Flatten(t) != []
    decreases t
  {
    match t
    case Infix(_, l, _) => FlattenNonempty(l);
    case Ternary(c, _, _) => FlattenNonempty(c);
    case Call(f, _) => FlattenNonempty(f);
    case Index(b, _) => FlattenNonempty(b);
    case Member(b, _, _) => FlattenNonempty(b);
    case Postfix(_, e) => FlattenNonempty(e);
    case _ =>
  }

  /** One turn of the loop. */
  lemma LoopTurn(left: Tree, t: Token, rest: seq<Token>, bp: nat, r: Tree, rest1: seq<Token>)
    requires Lbp(t) > bp && Led(left, t, rest) == Parsed(r, rest1, 0)
    ensures Loop(left, [t] + rest, 0, bp) == Loop(r, rest1, 0, bp)
  {
    hide Led;
    var toks := [t] + rest;
    assert toks[0] == t && toks[1..] == rest;
  }

  lemma LoopStops(t: Tree, rest: seq<Token>, bp: nat)
    requires Stops(rest, bp)
    ensures Loop(t, rest, 0, bp) == Parsed(t, rest, 0)
  {
  }

  /** A parser that starts on a correct tree's tokens takes them all, and then looks for more. */
  lemma {:induction false} Takes(t: Tree, rest: seq<Token>, bp: nat)
    requires Correct(t) && Loosest(t) > bp && Stops(rest, Open(t))
    ensures Parse(Flatten(t) + rest, bp) == Loop(t, rest, 0, bp)
    decreases t, 1
  {
    hide Correct, Loosest, Open, Flatten, Parse, Loop, Led, Stops;
    match t
    case Atom(_) => TakesAtom(t, rest, bp);
    case Paren(_) => TakesParen(t, rest, bp);
    case Prefix(_, _) => TakesPrefix(t, rest, bp);
    case Infix(_, _, _) => TakesInfix(t, rest, bp);
    case Ternary(_, _, _) => TakesTernary(t, rest, bp);
    case Call(_, _) => TakesCall(t, rest, bp);
    case Index(_, _) => TakesIndex(t, rest, bp);
    case Member(_, _, _) => TakesMember(t, rest, bp);
    case Postfix(_, _) => TakesPostfix(t, rest, bp);
    case Missing => assert false by { NotMissing(t); }
  }

  lemma NotMissing(t: Tree)
    requires Correct(t)
    ensures !t.Missing?
  {
  }

  /** A parse of a whole subexpression, at the power its position asks for. */
  lemma {:induction false} Parses(t: Tree, rest: seq<Token>, bp: nat)
    requires Correct(t) && Loosest(t) > bp && Stops(rest, Open(t)) && Stops(rest, bp)
    ensures Parse(Flatten(t) + rest, bp) == Parsed(t, rest, 0)
    decreases t, 2
  {
    hide Correct, Loosest, Open, Flatten, Parse, Loop;
    Takes(t, rest, bp);
    LoopStops(t, rest, bp);
  }

  /** How `Parse` starts. */
  lemma ParseStart(t: Token, rest: seq<Token>, bp: nat)
    ensures var q := Nud(t, rest); Parse([t] + rest, bp) == Loop(q.tree, q.rest, q.errors, bp)
  {
    hide Nud, Loop;
    var toks := [t] + rest;
    assert toks[0] == t && toks[1..] == rest;
  }

  lemma TakesAtom(t: Tree, rest: seq<Token>, bp: nat)
    requires Correct(t) && t.Atom?
    ensures Parse(Flatten(t) + rest, bp) == Loop(t, rest, 0, bp)
  {
    hide Parse, Loop;
    ParseStart(t.tok, rest, bp);
  }

  lemma {:induction false} TakesParen(t: Tree, rest: seq<Token>, bp: nat)
    requires Correct(t) && t.Paren?
    ensures Parse(Flatten(t) + rest, bp) == Loop(t, rest, 0, bp)
    decreases t, 0
  {
    var e := t.e;
    assert Correct(e);
    assert Flatten(t) == [LParen] + Flatten(e) + [RParen];
    assert Lbp(RParen) == 0;
    hide Lbp, Parse, Loop, Correct, Loosest, Open, Flatten;
    LoosestPositive(e);
    OpenPositive(e);
    var toks := Flatten(e) + ([RParen] + rest);
    assert Flatten(t) + rest == [LParen] + toks;
    Parses(e, [RParen] + rest, 0);
    assert ([RParen] + rest)[1..] == rest;
    ParseStart(LParen, toks, bp);
  }

  lemma {:induction false} OpenPositive(t: Tree)
    requires Correct(t)
    ensures Open(t) >= 9
    decreases t
  {
    match t
    case Prefix(_, e) => OpenPositive(e);
    case Infix(_, _, r) => OpenPositive(r);
    case Ternary(_, _, b) => OpenPositive(b);
    case _ =>
  }

  lemma {:induction false} TakesPrefix(t: Tree, rest: seq<Token>, bp: nat)
    requires Correct(t) && t.Prefix? && Stops(rest, Open(t))
    ensures Parse(Flatten(t) + rest, bp) == Loop(t, rest, 0, bp)
    decreases t, 0
  {
    hide Parse, Loop, Correct, Loosest, Open, Flatten;
    var e := t.e;
    PrefixNode(t.op, e);
    assert Flatten(t) + rest == [t.op] + (Flatten(e) + rest);
    Parses(e, rest, PREFIX);
    ParseStart(t.op, Flatten(e) + rest, bp);
  }

  lemma LedInfix(l: Tree, op: Token, r: Tree, right: seq<Token>, rest: seq<Token>)
    requires IsInfix(op) && Parse(right, Rbp(op)) == Parsed(r, rest, 0)
    ensures Led(l, op, right) == Parsed(Infix(op, l, r), rest, 0)
  {
    hide Parse;
  }

  lemma LedTernary(c: Tree, a: Tree, b: Tree, middle: seq<Token>, last: seq<Token>, rest: seq<Token>)
    requires Parse(middle, 0) == Parsed(a, [Colon] + last, 0) && Parse(last, Lbp(Question) - 1) == Parsed(b, rest, 0)
    ensures Led(c, Question, middle) == Parsed(Ternary(c, a, b), rest, 0)
  {
    hide Parse;
    assert ([Colon] + last)[1..] == last;
  }

  lemma LedIndex(b: Tree, i: Tree, inner: seq<Token>, rest: seq<Token>)
    requires Parse(inner, 0) == Parsed(i, [RBracket] + rest, 0)
    ensures Led(b, LBracket, inner) == Parsed(Index(b, i), rest, 0)
  {
    hide Parse;
    assert ([RBracket] + rest)[1..] == rest;
  }

  lemma LedCall(f: Tree, args: seq<Tree>, inner: seq<Token>, rest: seq<Token>)
    requires if args == [] then inner == [RParen] + rest
             else inner != [] && inner[0] != RParen && Args(inner) == (args, [RParen] + rest, 0)
    ensures Led(f, LParen, inner) == Parsed(Call(f, args), rest, 0)
  {
    hide Parse, Args;
    assert ([RParen] + rest)[1..] == rest;
  }

  lemma {:induction false} TakesInfix(t: Tree, rest: seq<Token>, bp: nat)
    requires Correct(t) && t.Infix? && Loosest(t) > bp && Stops(rest, Open(t))
    ensures Parse(Flatten(t) + rest, bp) == Loop(t, rest, 0, bp)
    decreases t, 0
  {
    hide Parse, Loop, Correct, Loosest, Open, Flatten, Led, Lbp, Rbp, IsInfix;
    InfixOf(t);
    var op, l, r := t.op, t.l, t.r;
    InfixNode(op, l, r);
    var right := Flatten(r) + rest;
    assert Flatten(t) + rest == Flatten(l) + ([op] + right);
    Takes(l, [op] + right, bp);
    Parses(r, rest, Rbp(op));
    LedInfix(l, op, r, right, rest);
    LoopTurn(l, op, right, bp, t, rest);
  }

  lemma {:induction false} TakesTernary(t: Tree, rest: seq<Token>, bp: nat)
    requires Correct(t) && t.Ternary? && Loosest(t) > bp && Stops(rest, Open(t))
    ensures Parse(Flatten(t) + rest, bp) == Loop(t, rest, 0, bp)
    decreases t, 0
  {
    var c, a, b := t.c, t.a, t.b;
    assert Lbp(Question) == 30 && Lbp(Colon) == 0;
    hide Lbp, Parse, Loop, Correct, Loosest, Open, Flatten, Led;
    TernaryNode(c, a, b);
    LoosestPositive(a);
    OpenPositive(a);
    var last := Flatten(b) + rest;
    var middle := Flatten(a) + ([Colon] + last);
    Branches(Flatten(c), Question, Flatten(a), Colon, Flatten(b), rest);
    assert Flatten(t) + rest == Flatten(c) + ([Question] + middle);
    Takes(c, [Question] + middle, bp);
    Parses(a, [Colon] + last, 0);
    Parses(b, rest, Lbp(Question) - 1);
    LedTernary(c, a, b, middle, last, rest);
    LoopTurn(c, Question, middle, bp, t, rest);
  }

  lemma {:induction false} TakesIndex(t: Tree, rest: seq<Token>, bp: nat)
    requires Correct(t) && t.Index? && Loosest(t) > bp
    ensures Parse(Flatten(t) + rest, bp) == Loop(t, rest, 0, bp)
    decreases t, 0
  {
    var b, i := t.base, t.i;
    assert Lbp(LBracket) == 150 && Lbp(RBracket) == 0;
    hide Parse, Loop, Correct, Loosest, Open, Flatten, Led, Lbp;
    IndexNode(b, i);
    LoosestPositive(i);
    OpenPositive(i);
    var inner := Flatten(i) + ([RBracket] + rest);
    Bracketed(Flatten(b), LBracket, Flatten(i), RBracket, rest);
    assert Flatten(t) + rest == Flatten(b) + ([LBracket] + inner);
    Takes(b, [LBracket] + inner, bp);
    Parses(i, [RBracket] + rest, 0);
    LedIndex(b, i, inner, rest);
    LoopTurn(b, LBracket, inner, bp, t, rest);
  }

  lemma {:induction false} TakesMember(t: Tree, rest: seq<Token>, bp: nat)
    requires Correct(t) && t.Member? && Loosest(t) > bp
    ensures Parse(Flatten(t) + rest, bp) == Loop(t, rest, 0, bp)
    decreases t, 0
  {
    hide Parse, Loop, Correct, Loosest, Open, Flatten;
    var b := t.base;
    MemberNode(b, t.op, t.name);
    var name := [Ident(t.name)] + rest;
    assert Flatten(t) + rest == Flatten(b) + ([t.op] + name);
    Takes(b, [t.op] + name, bp);
    assert name[1..] == rest;
    LoopTurn(b, t.op, name, bp, t, rest);
  }

  lemma {:induction false} TakesPostfix(t: Tree, rest: seq<Token>, bp: nat)
    requires Correct(t) && t.Postfix? && Loosest(t) > bp
    ensures Parse(Flatten(t) + rest, bp) == Loop(t, rest, 0, bp)
    decreases t, 0
  {
    hide Parse, Loop, Correct, Loosest, Open, Flatten;
    var e := t.e;
    PostfixNode(t.op, e);
    assert Flatten(t) + rest == Flatten(e) + ([t.op] + rest);
    Takes(e, [t.op] + rest, bp);
    LoopTurn(e, t.op, rest, bp, t, rest);
  }

  lemma {:induction false} TakesCall(t: Tree, rest: seq<Token>, bp: nat)
    requires Correct(t) && t.Call? && Loosest(t) > bp
    ensures Parse(Flatten(t) + rest, bp) == Loop(t, rest, 0, bp)
    decreases t, 0
  {
    var f, args := t.f, t.args;
    assert Lbp(LParen) == 150 && Lbp(RParen) == 0;
    hide Lbp, Parse, Loop, Correct, Loosest, Open, Flatten, FlattenArgs, Args, Arguments, Led;
    CallNode(f, args);
    var inner := FlattenArgs(args) + ([RParen] + rest);
    Bracketed(Flatten(f), LParen, FlattenArgs(args), RParen, rest);
    assert Flatten(t) + rest == Flatten(f) + ([LParen] + inner);
    Takes(f, [LParen] + inner, bp);
    if args == [] {
      assert FlattenArgs([]) == [] by { NoArguments(); }
      assert inner == [RParen] + rest;
    } else {
      TakesArgs(args, [RParen] + rest);
      FirstArgument(args, [RParen] + rest);
    }
    LedCall(f, args, inner, rest);
    LoopTurn(f, LParen, inner, bp, t, rest);
  }

  lemma NoArguments()
    ensures FlattenArgs([]) == []
  {
  }

  /** A list of arguments does not start with a closing parenthesis. */
  lemma FirstArgument(args: seq<Tree>, rest: seq<Token>)
    requires args != [] && Arguments(args)
    ensures var toks := FlattenArgs(args) + rest; toks != [] && toks[0] != RParen
  {
    hide Correct, Loosest, Flatten;
    var e := args[0];
    FirstToken(e);
    assert FlattenArgs(args)[0] == Flatten(e)[0];
  }

  lemma {:induction false} FirstToken(t: Tree)
    requires Correct(t)
    ensures Flatten(t) != [] && Flatten(t)[0] != RParen
    decreases t
  {
    match t
    case Infix(_, l, _) => FirstToken(l);
    case Ternary(c, _, _) => FirstToken(c);
    case Call(f, _) => FirstToken(f);
    case Index(b, _) => FirstToken(b);
    case Member(b, _, _) => FirstToken(b);
    case Postfix(_, e) => FirstToken(e);
    case _ =>
  }

  lemma {:induction false} TakesArgs(args: seq<Tree>, rest: seq<Token>)
    requires args != [] && Arguments(args) && rest != [] && rest[0] == RParen
    ensures Args(FlattenArgs(args) + rest) == (args, rest, 0)
    decreases args, 1
  {
    hide Parse, Correct, Loosest, Open, Flatten;
    var e, more := args[0], args[1..];
    OpenPositive(e);
    if more == [] {
      assert args == [e];
      Parses(e, rest, Lbp(Comma));
    } else {
      assert Arguments(more);
      assert args == [e] + more;
      var tail := FlattenArgs(more) + rest;
      assert FlattenArgs(args) + rest == Flatten(e) + ([Comma] + tail);
      assert Open(e) >= Lbp(Comma) by { OpenAboveComma(e); }
      Parses(e, [Comma] + tail, Lbp(Comma));
      assert ([Comma] + tail)[1..] == tail;
      TakesArgs(more, rest);
    }
  }

  /** A tree without a comma on its left spine has none open at its right edge. */
  lemma {:induction false} OpenAboveComma(t: Tree)
    requires Correct(t)
    ensures Loosest(t) > Lbp(Comma) ==> Open(t) >= Lbp(Comma)
    decreases t
  {
    match t
    case Prefix(_, e) => OpenAboveComma(e);
    case Infix(_, _, r) => OpenAboveComma(r);
    case Ternary(_, _, b) => OpenAboveComma(b);
    case _ =>
  }

  /** Every correct tree is the tree its own tokens parse to. */
  lemma ParseComplete(t: Tree)
    requires Correct(t)
    ensures Parse(Flatten(t), 0) == Parsed(t, [], 0)
  {
    hide Parse;
    LoosestPositive(t);
    Parses(t, [], 0);
    assert Flatten(t) + [] == Flatten(t);
  }

  /** Pratt parsing is unambiguous: the tokens determine the tree. */
  lemma ParseUnique(t: Tree, u: Tree)
    requires Correct(t) && Correct(u) && Flatten(t) == Flatten(u)
    ensures t == u
  {
    ParseComplete(t);
    ParseComplete(u);
  }

  /** A whole input parses without errors exactly when it is the text of a correct tree. */
  lemma ParseExact(toks: seq<Token>)
    ensures (Parse(toks, 0).errors == 0 && Parse(toks, 0).rest == [])
            <==> exists t: Tree :: Correct(t) && Flatten(t) == toks
  {
    hide Parse;
    ParseSound(toks, 0);
    if Parse(toks, 0).errors == 0 && Parse(toks, 0).rest == [] {
      var t := Parse(toks, 0).tree;
      assert Flatten(t) + [] == Flatten(t);
      assert Correct(t) && Flatten(t) == toks;
    }
    if t: Tree :| Correct(t) && Flatten(t) == toks {
      ParseComplete(t);
    }
  }

  // ----- the tree the compiler keeps -----

  /** Parentheses and unary plus leave no node; a missing operand is the placeholder 0. */
  function Erase(t: Tree): Tree {
    match t
    case Atom(_) => t
    case Missing => Atom(IntLit(0))
    case Paren(e) => Erase(e)
    case Prefix(op, e) => if op == Plus then Erase(e) else Prefix(op, Erase(e))
    case Infix(op, l, r) => Infix(op, Erase(l), Erase(r))
    case Ternary(c, a, b) => Ternary(Erase(c), Erase(a), Erase(b))
    case Call(f, args) => Call(Erase(f), EraseAll(args))
    case Index(b, i) => Index(Erase(b), Erase(i))
    case Member(b, op, x) => Member(Erase(b), op, x)
    case Postfix(op, e) => Postfix(op, Erase(e))
  }

  function EraseAll(args: seq<Tree>): (r: seq<Tree>)
    ensures |r| == |args| && forall i :: 0 <= i < |args| ==> r[i] == Erase(args[i])
  {
    if args == [] then [] else [Erase(args[0])] + EraseAll(args[1..])
  }

  /** The trees the parser can return. */
  predicate Ast(t: Tree) {
    match t
    case Atom(tok) => IsAtom(tok)
    case Prefix(op, e) => IsPrefix(op) && op != Plus && Ast(e)
    case Infix(op, l, r) => IsInfix(op) && Ast(l) && Ast(r)
    case Ternary(c, a, b) => Ast(c) && Ast(a) && Ast(b)
    case Call(f, args) => Ast(f) && forall i :: 0 <= i < |args| ==> Ast(args[i])
    case Index(b, i) => Ast(b) && Ast(i)
    case Member(b, op, _) => Ast(b) && (op == Dot || op == Arrow)
    case Postfix(op, e) => Ast(e) && (op == PlusPlus || op == MinusMinus)
    case _ => false
  }

  // ----- printing with parentheses only where the grammar needs them -----

  function Guard(t: Tree, ok: bool): Tree {
    if ok then t else Paren(t)
  }

  function Print(t: Tree): Tree {
    match t
    case Prefix(op, e) => Prefix(op, Guard(Print(e), Loosest(Print(e)) > PREFIX))
    case Infix(op, l, r) =>
      Infix(op, Guard(Print(l), Lbp(op) <= Open(Print(l))),
            Guard(Print(r), Loosest(Print(r)) > if IsInfix(op) then Rbp(op) else 0))
    case Ternary(c, a, b) =>
      Ternary(Guard(Print(c), Lbp(Question) <= Open(Print(c))), Print(a),
              Guard(Print(b), Loosest(Print(b)) > Lbp(Question) - 1))
    case Call(f, args) => Call(Guard(Print(f), 150 <= Open(Print(f))), PrintArgs(args))
    case Index(b, i) => Index(Guard(Print(b), 150 <= Open(Print(b))), Print(i))
    case Member(b, op, x) => Member(Guard(Print(b), 150 <= Open(Print(b))), op, x)
    case Postfix(op, e) => Postfix(op, Guard(Print(e), 150 <= Open(Print(e))))
    case _ => t
  }

  function PrintArgs(args: seq<Tree>): (r: seq<Tree>)
    ensures |r| == |args|
    ensures forall i :: 0 <= i < |args| ==> r[i] == Guard(Print(args[i]), Loosest(Print(args[i])) > Lbp(Comma))
  {
    if args == [] then []
    else [Guard(Print(args[0]), Loosest(Print(args[0])) > Lbp(Comma))] + PrintArgs(args[1..])
  }

  lemma GuardIs(t: Tree, ok: bool)
    requires Correct(t)
    ensures Correct(Guard(t, ok)) && Erase(Guard(t, ok)) == Erase(t)
    ensures if ok then Guard(t, ok) == t else Loosest(Guard(t, ok)) == TOP && Open(Guard(t, ok)) == TOP
  {
  }

  lemma {:induction false} PrintCorrect(t: Tree)
    requires Ast(t)
    ensures Correct(Print(t)) && Erase(Print(t)) == t
    decreases t
  {
    hide Correct, Print, Erase;
    match t
    case Atom(_) => PrintedAtom(t);
    case Prefix(op, e) =>
      PrintCorrect(e);
      PrintedPrefix(op, e);
    case Infix(op, l, r) =>
      PrintCorrect(l);
      PrintCorrect(r);
      PrintedInfix(op, l, r);
    case Ternary(c, a, b) =>
      PrintCorrect(c);
      PrintCorrect(a);
      PrintCorrect(b);
      PrintedTernary(c, a, b);
    case Call(f, args) => PrintCall(f, args);
    case Index(b, i) =>
      PrintCorrect(b);
      PrintCorrect(i);
      PrintedIndex(b, i);
    case Member(b, op, x) =>
      PrintCorrect(b);
      PrintedMember(b, op, x);
    case Postfix(op, e) =>
      PrintCorrect(e);
      PrintedPostfix(op, e);
  }

  /** An operand of a postfix form, in parentheses if it must be. */
  lemma OperandIs(p: Tree)
    requires Correct(p)
    ensures var g := Guard(p, 150 <= Open(p)); Correct(g) && 150 <= Open(g) && Erase(g) == Erase(p)
  {
    hide Correct, Open, Guard;
    GuardIs(p, 150 <= Open(p));
  }

  lemma PrintedAtom(t: Tree)
    requires t.Atom? && Ast(t)
    ensures Correct(Print(t)) && Erase(Print(t)) == t
  {
    hide Correct;
    AtomNode(t);
  }

  lemma PrintedPrefix(op: Token, e: Tree)
    requires Ast(Prefix(op, e)) && Correct(Print(e)) && Erase(Print(e)) == e
    ensures Correct(Print(Prefix(op, e))) && Erase(Print(Prefix(op, e))) == Prefix(op, e)
  {
    hide Correct, Loosest, Open, Flatten, Guard;
    GuardIs(Print(e), Loosest(Print(e)) > PREFIX);
    PrefixNode(op, Guard(Print(e), Loosest(Print(e)) > PREFIX));
  }

  lemma PrintedIndex(b: Tree, i: Tree)
    requires Correct(Print(b)) && Erase(Print(b)) == b && Correct(Print(i)) && Erase(Print(i)) == i
    ensures Correct(Print(Index(b, i))) && Erase(Print(Index(b, i))) == Index(b, i)
  {
    hide Correct, Loosest, Open, Flatten, Guard, Lbp, Rbp;
    OperandIs(Print(b));
    IndexNode(Guard(Print(b), 150 <= Open(Print(b))), Print(i));
  }

  lemma PrintedMember(b: Tree, op: Token, x: string)
    requires (op == Dot || op == Arrow) && Correct(Print(b)) && Erase(Print(b)) == b
    ensures Correct(Print(Member(b, op, x))) && Erase(Print(Member(b, op, x))) == Member(b, op, x)
  {
    hide Correct, Loosest, Open, Flatten, Guard, Lbp, Rbp;
    OperandIs(Print(b));
    MemberNode(Guard(Print(b), 150 <= Open(Print(b))), op, x);
  }

  lemma PrintedPostfix(op: Token, e: Tree)
    requires (op == PlusPlus || op == MinusMinus) && Correct(Print(e)) && Erase(Print(e)) == e
    ensures Correct(Print(Postfix(op, e))) && Erase(Print(Postfix(op, e))) == Postfix(op, e)
  {
    hide Correct, Loosest, Open, Flatten, Guard, Lbp, Rbp;
    OperandIs(Print(e));
    PostfixNode(op, Guard(Print(e), 150 <= Open(Print(e))));
  }

  lemma AtomNode(t: Tree)
    requires t.Atom? && IsAtom(t.tok)
    ensures Correct(t)
  {
  }

  lemma PrintedInfix(op: Token, l: Tree, r: Tree)
    requires IsInfix(op) && Correct(Print(l)) && Correct(Print(r)) && Erase(Print(l)) == l && Erase(Print(r)) == r
    ensures Correct(Print(Infix(op, l, r))) && Erase(Print(Infix(op, l, r))) == Infix(op, l, r)
  {
    hide Correct, Loosest, Open, Flatten, Guard, Lbp, Rbp, IsInfix;
    OperatorRange(op);
    GuardIs(Print(l), Lbp(op) <= Open(Print(l)));
    GuardIs(Print(r), Loosest(Print(r)) > Rbp(op));
    InfixNode(op, Guard(Print(l), Lbp(op) <= Open(Print(l))), Guard(Print(r), Loosest(Print(r)) > Rbp(op)));
  }

  lemma OperatorRange(op: Token)
    requires IsInfix(op)
    ensures Rbp(op) <= Lbp(op) <= 130
  {
  }

  lemma QuestionPower()
    ensures Lbp(Question) == 30
  {
  }

  lemma PrintedTernary(c: Tree, a: Tree, b: Tree)
    requires Correct(Print(c)) && Correct(Print(a)) && Correct(Print(b))
    requires Erase(Print(c)) == c && Erase(Print(a)) == a && Erase(Print(b)) == b
    ensures Correct(Print(Ternary(c, a, b))) && Erase(Print(Ternary(c, a, b))) == Ternary(c, a, b)
  {
    hide Correct, Loosest, Open, Flatten, Guard, Lbp;
    assert Lbp(Question) == 30 by { QuestionPower(); }
    GuardIs(Print(c), Lbp(Question) <= Open(Print(c)));
    GuardIs(Print(b), Loosest(Print(b)) > Lbp(Question) - 1);
    TernaryNode(Guard(Print(c), Lbp(Question) <= Open(Print(c))), Print(a),
                Guard(Print(b), Loosest(Print(b)) > Lbp(Question) - 1));
  }

  lemma {:induction false} PrintCall(f: Tree, args: seq<Tree>)
    requires Ast(Call(f, args))
    ensures Correct(Print(Call(f, args))) && Erase(Print(Call(f, args))) == Call(f, args)
    decreases Call(f, args), 0
  {
    hide Correct, Loosest, Open, Flatten, FlattenArgs;
    PrintCorrect(f);
    forall i | 0 <= i < |args|
      ensures Correct(Print(args[i])) && Erase(Print(args[i])) == args[i]
    {
      PrintCorrect(args[i]);
    }
    GuardIs(Print(f), 150 <= Open(Print(f)));
    var out := PrintArgs(args);
    forall i | 0 <= i < |args|
      ensures Correct(out[i]) && Loosest(out[i]) > Lbp(Comma) && Erase(out[i]) == args[i]
    {
      GuardIs(Print(args[i]), Loosest(Print(args[i])) > Lbp(Comma));
    }
    assert EraseAll(out) == args;
    CallNode(Guard(Print(f), 150 <= Open(Print(f))), out);
  }

  /** Printing any tree and parsing the text gives the tree back. */
  lemma PrintParses(t: Tree)
    requires Ast(t)
    ensures var r := Parse(Flatten(Print(t)), 0); r.errors == 0 && r.rest == [] && Erase(r.tree) == t
  {
    hide Parse, Flatten, Correct, Print, Erase;
    PrintCorrect(t);
    ParseComplete(Print(t));
  }

  // ----- no shorter text has the same tree -----

  /** The powers of a correct tree are those of its outermost node. */
  function HeadLbp(t: Tree): int {
    match t
    case Infix(op, _, _) => Lbp(op)
    case Ternary(_, _, _) => Lbp(Question)
    case Call(_, _) => 150
    case Index(_, _) => 150
    case Member(_, _, _) => 150
    case Postfix(_, _) => 150
    case _ => TOP
  }

  function HeadOpen(t: Tree): int {
    match t
    case Prefix(_, _) => PREFIX
    case Infix(op, _, _) => if IsInfix(op) then Rbp(op) else 0
    case Ternary(_, _, _) => Lbp(Question) - 1
    case _ => TOP
  }

  lemma HeadIs(t: Tree)
    ensures Lbp(Question) == 30
    ensures match t
            case Prefix(_, _) => HeadLbp(t) == TOP && HeadOpen(t) == PREFIX
            case Infix(op, _, _) => IsInfix(op) ==> HeadLbp(t) == Lbp(op) && HeadOpen(t) == Rbp(op) <= 130
            case Ternary(_, _, _) => HeadLbp(t) == 30 && HeadOpen(t) == 29
            case Atom(_) => true
            case Missing => true
            case Paren(_) => true
            case _ => HeadLbp(t) == 150 && HeadOpen(t) == TOP
  {
  }

  lemma {:induction false} Heads(t: Tree)
    requires Correct(t)
    ensures Loosest(t) == HeadLbp(t) && Open(t) == HeadOpen(t)
    decreases t
  {
    hide Correct, Loosest, Open, Flatten, HeadLbp, HeadOpen, Lbp;
    HeadIs(t);
    match t
    case Prefix(op, e) => PrefixNode(op, e); Heads(e); HeadOps(e);
    case Infix(op, l, r) =>
      assert IsInfix(op) && Correct(l) && Correct(r) by { InfixParts(t); }
      Heads(l);
      Heads(r);
      HeadsInfix(op, l, r);
    case Ternary(c, a, b) =>
      assert Correct(c) && Correct(b) by { TernaryParts(t); }
      Heads(c);
      Heads(b);
      HeadsTernary(c, a, b);
    case Call(f, args) => CallNode(f, args); Heads(f); HeadOps(f);
    case Index(b, i) => IndexNode(b, i); Heads(b); HeadOps(b);
    case Member(b, op, x) => MemberNode(b, op, x); Heads(b); HeadOps(b);
    case Postfix(op, e) => PostfixNode(op, e); Heads(e); HeadOps(e);
    case _ => BareHead(t);
  }

  lemma BareHead(t: Tree)
    requires t.Atom? || t.Paren? || t.Missing?
    ensures Loosest(t) == HeadLbp(t) && Open(t) == HeadOpen(t)
  {
  }

  lemma InfixParts(t: Tree)
    requires t.Infix? && Correct(t)
    ensures IsInfix(t.op) && Correct(t.l) && Correct(t.r)
  {
  }

  lemma TernaryParts(t: Tree)
    requires t.Ternary? && Correct(t)
    ensures Correct(t.c) && Correct(t.b)
  {
  }

  lemma HeadsInfix(op: Token, l: Tree, r: Tree)
    requires Correct(Infix(op, l, r)) && IsInfix(op)
    requires Correct(l) && Loosest(l) == HeadLbp(l) && Open(l) == HeadOpen(l)
    requires Correct(r) && Loosest(r) == HeadLbp(r) && Open(r) == HeadOpen(r)
    ensures var t := Infix(op, l, r); Loosest(t) == HeadLbp(t) && Open(t) == HeadOpen(t)
  {
    hide Correct, Loosest, Open, Flatten, HeadLbp, HeadOpen, Lbp, Rbp, IsInfix;
    HeadIs(Infix(op, l, r));
    OperatorRange(op);
    InfixNode(op, l, r);
    HeadOps(l);
    HeadOps(r);
  }

  lemma HeadsTernary(c: Tree, a: Tree, b: Tree)
    requires Correct(Ternary(c, a, b))
    requires Correct(c) && Loosest(c) == HeadLbp(c) && Open(c) == HeadOpen(c)
    requires Correct(b) && Loosest(b) == HeadLbp(b) && Open(b) == HeadOpen(b)
    ensures var t := Ternary(c, a, b); Loosest(t) == HeadLbp(t) && Open(t) == HeadOpen(t)
  {
    hide Correct, Loosest, Open, Flatten, HeadLbp, HeadOpen, Lbp;
    HeadIs(Ternary(c, a, b));
    TernaryNode(c, a, b);
    HeadOps(c);
    HeadOps(b);
  }

  lemma HeadOps(t: Tree)
    requires Correct(t)
    ensures Min(150, HeadOpen(t)) <= HeadLbp(t) && Min(PREFIX, HeadLbp(t) - 1) <= HeadOpen(t)
  {
  }

  /**
   The printed form of the tree that `t` stands for: not longer than `t`, and shorter by a pair of
   parentheses unless it fits everywhere that `t` does.
   */
  predicate NoWorse(p: Tree, t: Tree) {
    || |Flatten(p)| + 2 <= |Flatten(t)|
    || (&& |Flatten(p)| <= |Flatten(t)| && Open(p) >= Open(t)
        && Min(PREFIX + 1, Loosest(t)) <= Loosest(p))
  }

  lemma GuardLeft(p: Tree, t: Tree, lbp: nat)
    requires NoWorse(p, t) && lbp <= Open(t)
    ensures |Flatten(Guard(p, lbp <= Open(p)))| <= |Flatten(t)|
  {
  }

  lemma GuardRight(p: Tree, t: Tree, k: nat)
    requires NoWorse(p, t) && k <= PREFIX && k < Loosest(t)
    ensures |Flatten(Guard(p, Loosest(p) > k))| <= |Flatten(t)|
  {
  }

  lemma NotLonger(p: Tree, t: Tree)
    requires NoWorse(p, t)
    ensures |Flatten(p)| <= |Flatten(t)|
  {
  }

  lemma Weights(op: Token, a: Tree, b: Tree, c: Tree, x: string)
    ensures |Flatten(Prefix(op, a))| == 1 + |Flatten(a)| && |Flatten(Postfix(op, a))| == |Flatten(a)| + 1
    ensures |Flatten(Infix(op, a, b))| == |Flatten(a)| + 1 + |Flatten(b)|
    ensures |Flatten(Ternary(a, b, c))| == |Flatten(a)| + |Flatten(b)| + |Flatten(c)| + 2
    ensures |Flatten(Index(a, b))| == |Flatten(a)| + |Flatten(b)| + 2
    ensures |Flatten(Member(a, op, x))| == |Flatten(a)| + 2
  {
  }

  lemma {:induction false} PrintShortest(t: Tree)
    requires Correct(t)
    ensures Ast(Erase(t)) && NoWorse(Print(Erase(t)), t)
    decreases t, 1
  {
    hide Correct, Loosest, Open, Flatten, NoWorse, Print;
    match t
    case Atom(_) => ShortestAtom(t);
    case Missing => NotMissing(t);
    case Paren(e) =>
      assert Correct(e) by { InsideParen(t); }
      PrintShortest(e);
      ShortestParen(e, Print(Erase(e)));
    case Prefix(op, e) =>
      PrefixNode(op, e);
      PrintShortest(e);
      if op == Plus {
        ShortestPlus(e, Print(Erase(e)));
      } else {
        ShortestPrefix(op, e);
      }
    case Infix(op, l, r) =>
      assert IsInfix(op) by { InfixOf(t); }
      InfixNode(op, l, r);
      PrintShortest(l);
      PrintShortest(r);
      ShortestInfix(op, l, r);
    case Ternary(c, a, b) =>
      TernaryNode(c, a, b);
      PrintShortest(c);
      PrintShortest(a);
      PrintShortest(b);
      ShortestTernary(c, a, b);
    case Call(f, args) =>
      CallNode(f, args);
      PrintShortest(f);
      forall i | 0 <= i < |args|
        ensures Ast(Erase(args[i])) && NoWorse(Print(Erase(args[i])), args[i])
      {
        PrintShortest(args[i]);
      }
      ShortestCall(f, args);
    case Index(b, i) =>
      IndexNode(b, i);
      PrintShortest(b);
      PrintShortest(i);
      ShortestIndex(b, i);
    case Member(b, op, x) =>
      MemberNode(b, op, x);
      PrintShortest(b);
      ShortestMember(b, op, x);
    case Postfix(op, e) =>
      PostfixNode(op, e);
      PrintShortest(e);
      ShortestPostfix(op, e);
  }

  lemma InsideParen(t: Tree)
    requires t.Paren? && Correct(t)
    ensures Correct(t.e)
  {
  }

  lemma InfixOf(t: Tree)
    requires t.Infix? && Correct(t)
    ensures IsInfix(t.op)
  {
  }

  lemma ShortestAtom(t: Tree)
    requires Correct(t) && t.Atom?
    ensures Ast(Erase(t)) && NoWorse(Print(Erase(t)), t)
  {
  }

  lemma ShortestParen(e: Tree, p: Tree)
    requires NoWorse(p, e)
    ensures NoWorse(p, Paren(e))
  {
    assert Flatten(Paren(e)) == [LParen] + Flatten(e) + [RParen];
  }

  lemma ShortestPlus(e: Tree, p: Tree)
    requires NoWorse(p, e) && Loosest(e) > PREFIX
    ensures NoWorse(p, Prefix(Plus, e))
  {
    assert Flatten(Prefix(Plus, e)) == [Plus] + Flatten(e);
    assert PREFIX < Loosest(e);
  }

  /** Two correct trees with the same outermost node have the same powers. */
  lemma SameHead(p: Tree, t: Tree)
    requires Correct(p) && Correct(t) && HeadLbp(p) == HeadLbp(t) && HeadOpen(p) == HeadOpen(t)
    requires |Flatten(p)| <= |Flatten(t)|
    ensures NoWorse(p, t)
  {
    hide Correct, Loosest, Open, Flatten;
    Heads(p);
    Heads(t);
  }

  lemma ShortestPrefix(op: Token, e: Tree)
    requires Correct(Prefix(op, e)) && op != Plus && IsPrefix(op) && Loosest(e) > PREFIX
    requires Ast(Erase(e)) && NoWorse(Print(Erase(e)), e)
    ensures var t := Prefix(op, e); Ast(Erase(t)) && NoWorse(Print(Erase(t)), t)
  {
    hide Correct, Loosest, Open, Flatten, NoWorse;
    var t, p := Prefix(op, e), Print(Erase(e));
    PrintCorrect(Erase(t));
    GuardRight(p, e, PREFIX);
    Weights(op, e, e, e, "");
    Weights(op, Guard(p, Loosest(p) > PREFIX), e, e, "");
    SameHead(Print(Erase(t)), t);
  }

  lemma InfixPrinted(op: Token, l: Tree, r: Tree)
    requires IsInfix(op) && Ast(Erase(l)) && Ast(Erase(r))
    ensures var t, pl, pr := Infix(op, l, r), Print(Erase(l)), Print(Erase(r));
            && Ast(Erase(t))
            && Print(Erase(t)) == Infix(op, Guard(pl, Lbp(op) <= Open(pl)), Guard(pr, Loosest(pr) > Rbp(op)))
  {
    hide Guard, Open, Loosest, Lbp, Rbp, IsInfix, Print;
    assert Erase(Infix(op, l, r)) == Infix(op, Erase(l), Erase(r));
    PrintOfInfix(op, Erase(l), Erase(r));
  }

  lemma PrintOfInfix(op: Token, l: Tree, r: Tree)
    requires IsInfix(op)
    ensures Print(Infix(op, l, r))
            == Infix(op, Guard(Print(l), Lbp(op) <= Open(Print(l))), Guard(Print(r), Loosest(Print(r)) > Rbp(op)))
  {
    hide Guard, Open, Loosest, Lbp, Rbp, IsInfix;
  }

  lemma ShortestInfix(op: Token, l: Tree, r: Tree)
    requires Correct(Infix(op, l, r)) && IsInfix(op) && Lbp(op) <= Open(l) && Loosest(r) > Rbp(op)
    requires Ast(Erase(l)) && NoWorse(Print(Erase(l)), l) && Ast(Erase(r)) && NoWorse(Print(Erase(r)), r)
    ensures var t := Infix(op, l, r); Ast(Erase(t)) && NoWorse(Print(Erase(t)), t)
  {
    hide Correct, Loosest, Open, Flatten, NoWorse, Print, Erase, Ast, Guard, Lbp, Rbp, IsInfix, HeadLbp, HeadOpen;
    InfixPrinted(op, l, r);
    OperatorRange(op);
    var t, pl, pr := Infix(op, l, r), Print(Erase(l)), Print(Erase(r));
    PrintCorrect(Erase(t));
    GuardLeft(pl, l, Lbp(op));
    GuardRight(pr, r, Rbp(op));
    Weights(op, l, r, l, "");
    Weights(op, Guard(pl, Lbp(op) <= Open(pl)), Guard(pr, Loosest(pr) > Rbp(op)), l, "");
    HeadIs(t);
    HeadIs(Print(Erase(t)));
    SameHead(Print(Erase(t)), t);
  }

  lemma TernaryPrinted(c: Tree, a: Tree, b: Tree)
    requires Ast(Erase(c)) && Ast(Erase(a)) && Ast(Erase(b))
    ensures var t, pc, pb := Ternary(c, a, b), Print(Erase(c)), Print(Erase(b));
            && Ast(Erase(t))
            && Print(Erase(t)) == Ternary(Guard(pc, Lbp(Question) <= Open(pc)), Print(Erase(a)),
                                          Guard(pb, Loosest(pb) > Lbp(Question) - 1))
  {
    hide Guard, Open, Loosest, Lbp;
  }

  lemma ShortestTernary(c: Tree, a: Tree, b: Tree)
    requires Correct(Ternary(c, a, b)) && Lbp(Question) <= Open(c) && Loosest(b) > Lbp(Question) - 1
    requires Ast(Erase(c)) && NoWorse(Print(Erase(c)), c) && Ast(Erase(a)) && NoWorse(Print(Erase(a)), a)
    requires Ast(Erase(b)) && NoWorse(Print(Erase(b)), b)
    ensures var t := Ternary(c, a, b); Ast(Erase(t)) && NoWorse(Print(Erase(t)), t)
  {
    hide Correct, Loosest, Open, Flatten, NoWorse, Print, Erase, Ast, Guard, Lbp, HeadLbp, HeadOpen;
    TernaryPrinted(c, a, b);
    assert Lbp(Question) == 30 by { QuestionPower(); }
    var t, pc, pa, pb := Ternary(c, a, b), Print(Erase(c)), Print(Erase(a)), Print(Erase(b));
    PrintCorrect(Erase(t));
    NotLonger(pa, a);
    GuardLeft(pc, c, Lbp(Question));
    GuardRight(pb, b, Lbp(Question) - 1);
    Weights(Question, c, a, b, "");
    Weights(Question, Guard(pc, Lbp(Question) <= Open(pc)), pa, Guard(pb, Loosest(pb) > Lbp(Question) - 1), "");
    HeadIs(t);
    HeadIs(Print(Erase(t)));
    SameHead(Print(Erase(t)), t);
  }

  lemma IndexPrinted(b: Tree, i: Tree)
    requires Ast(Erase(b)) && Ast(Erase(i))
    ensures var t, pb := Index(b, i), Print(Erase(b));
            Ast(Erase(t)) && Print(Erase(t)) == Index(Guard(pb, 150 <= Open(pb)), Print(Erase(i)))
  {
    hide Guard, Open;
  }

  lemma ShortestIndex(b: Tree, i: Tree)
    requires Correct(Index(b, i)) && 150 <= Open(b)
    requires Ast(Erase(b)) && NoWorse(Print(Erase(b)), b) && Ast(Erase(i)) && NoWorse(Print(Erase(i)), i)
    ensures var t := Index(b, i); Ast(Erase(t)) && NoWorse(Print(Erase(t)), t)
  {
    hide Correct, Loosest, Open, Flatten, NoWorse, Print, Erase, Ast, Guard, HeadLbp, HeadOpen;
    IndexPrinted(b, i);
    var t, pb, pi := Index(b, i), Print(Erase(b)), Print(Erase(i));
    PrintCorrect(Erase(t));
    NotLonger(pi, i);
    GuardLeft(pb, b, 150);
    Weights(LBracket, b, i, i, "");
    Weights(LBracket, Guard(pb, 150 <= Open(pb)), pi, i, "");
    HeadIs(t);
    HeadIs(Print(Erase(t)));
    SameHead(Print(Erase(t)), t);
  }

  lemma ShortestMember(b: Tree, op: Token, x: string)
    requires Correct(Member(b, op, x)) && 150 <= Open(b) && (op == Dot || op == Arrow)
    requires Ast(Erase(b)) && NoWorse(Print(Erase(b)), b)
    ensures var t := Member(b, op, x); Ast(Erase(t)) && NoWorse(Print(Erase(t)), t)
  {
    hide Correct, Loosest, Open, Flatten, NoWorse, Guard, Lbp, Rbp;
    var t, p := Member(b, op, x), Print(Erase(b));
    PrintCorrect(Erase(t));
    GuardLeft(p, b, 150);
    Weights(op, b, b, b, x);
    Weights(op, Guard(p, 150 <= Open(p)), b, b, x);
    SameHead(Print(Erase(t)), t);
  }

  lemma ShortestPostfix(op: Token, e: Tree)
    requires Correct(Postfix(op, e)) && 150 <= Open(e) && (op == PlusPlus || op == MinusMinus)
    requires Ast(Erase(e)) && NoWorse(Print(Erase(e)), e)
    ensures var t := Postfix(op, e); Ast(Erase(t)) && NoWorse(Print(Erase(t)), t)
  {
    hide Correct, Loosest, Open, Flatten, NoWorse, Guard, Lbp, Rbp;
    var t, p := Postfix(op, e), Print(Erase(e));
    PrintCorrect(Erase(t));
    GuardLeft(p, e, 150);
    Weights(op, e, e, e, "");
    Weights(op, Guard(p, 150 <= Open(p)), e, e, "");
    SameHead(Print(Erase(t)), t);
  }

  lemma {:induction false} ArgsShorter(xs: seq<Tree>, ys: seq<Tree>)
    requires |xs| == |ys| && forall i :: 0 <= i < |xs| ==> |Flatten(xs[i])| <= |Flatten(ys[i])|
    ensures |FlattenArgs(xs)| <= |FlattenArgs(ys)|
    decreases xs
  {
    hide Flatten;
    if |xs| > 1 {
      ArgsShorter(xs[1..], ys[1..]);
    }
  }

  lemma CallPrinted(f: Tree, args: seq<Tree>)
    requires Ast(Erase(f)) && forall i :: 0 <= i < |args| ==> Ast(Erase(args[i]))
    ensures var t, p := Call(f, args), Print(Erase(f));
            Ast(Erase(t)) && Print(Erase(t)) == Call(Guard(p, 150 <= Open(p)), PrintArgs(EraseAll(args)))
  {
    hide Guard, Open, PrintArgs;
  }

  lemma ShortestCall(f: Tree, args: seq<Tree>)
    requires Correct(Call(f, args)) && 150 <= Open(f) && Arguments(args)
    requires Ast(Erase(f)) && NoWorse(Print(Erase(f)), f)
    requires forall i :: 0 <= i < |args| ==> Ast(Erase(args[i])) && NoWorse(Print(Erase(args[i])), args[i])
    ensures var t := Call(f, args); Ast(Erase(t)) && NoWorse(Print(Erase(t)), t)
  {
    hide Correct, Loosest, Open, Flatten, NoWorse, FlattenArgs, Print, Erase, Ast, Guard;
    var t, p := Call(f, args), Print(Erase(f));
    CallPrinted(f, args);
    PrintCorrect(Erase(t));
    GuardLeft(p, f, 150);
    var out := PrintArgs(EraseAll(args));
    forall i | 0 <= i < |args|
      ensures |Flatten(out[i])| <= |Flatten(args[i])|
    {
      GuardRight(Print(Erase(args[i])), args[i], Lbp(Comma));
    }
    ArgsShorter(out, args);
    CallNode(f, args);
    CallNode(Guard(p, 150 <= Open(p)), out);
    SameHead(Print(Erase(t)), t);
  }

  /** Minimal parentheses: no text that parses to the same tree is shorter than the printed one. */
  lemma PrintMinimal(toks: seq<Token>)
    requires Parse(toks, 0).errors == 0 && Parse(toks, 0).rest == []
    ensures var a := Erase(Parse(toks, 0).tree); Ast(a) && |Flatten(Print(a))| <= |toks|
  {
    hide Parse, Flatten, Print, Erase, Correct, Loosest, Open;
    var t := Parse(toks, 0).tree;
    ParseSound(toks, 0);
    PrintShortest(t);
    assert toks == Flatten(t) + [];
  }
}
