/**
 The expression parser as the stateful code it is: a position in the token stream, an error count,
 and mutually recursive methods whose termination measure is the tokens left and a rank.
 */
module Parser {
  import opened Wrappers
  import opened Pratt
  import CGrammar

  class Parser {
    const toks: seq<Token>
    var pos: nat
    var errors: nat

    ghost predicate Valid()
      reads this
    {
      pos <= |toks|
    }

    ghost function Rest(): seq<Token>
      reads this
      requires Valid()
    {
      toks[pos..]
    }

    constructor (input: seq<Token>)
      ensures Valid() && Rest() == input && errors == 0
    {
      toks, pos, errors := input, 0, 0;
    }

    predicate AtEnd()
      reads this
    {
      pos >= |toks|
    }

    /** `check` */
    predicate Check(t: Token)
      reads this
    {
      pos < |toks| && toks[pos] == t
    }

    /** Past the end of the input the lexer goes on returning its end token without moving. */
    method Advance()
      requires Valid()
      modifies this`pos
      ensures Valid() && Rest() == if old(AtEnd()) then old(Rest()) else old(Rest())[1..]
      ensures pos == if old(AtEnd()) then old(pos) else old(pos) + 1
    {
      if !AtEnd() { pos := pos + 1; }
    }

    method ExpectToken(t: Token)
      requires Valid()
      modifies this
      ensures Valid() && pos >= old(pos)
      ensures (Rest(), errors) == (Expect(old(Rest()), t).0, old(errors) + Expect(old(Rest()), t).1)
    {
      if !Check(t) { errors := errors + 1; }
      Advance();
    }

    method ExpectIdent() returns (name: string)
      requires Valid()
      modifies this
      ensures Valid() && pos >= old(pos)
      ensures var (x, rest, n) := ExpectName(old(Rest())); name == x && Rest() == rest && errors == old(errors) + n
    {
      name := "";
      if !AtEnd() && toks[pos].Ident? {
        name := toks[pos].name;
      } else {
        errors := errors + 1;
      }
      Advance();
    }

    /** What a call has done, against the specification function's result. */
    twostate predicate Did(tree: Tree, q: Parsed)
      reads this
    {
      Valid() && pos >= old(pos) && tree == Erase(q.tree) && Rest() == q.rest && errors == old(errors) + q.errors
    }

    /** `parse_expr` */
    method ParseExpr(bp: nat) returns (tree: Tree)
      requires Valid()
      modifies this
      ensures Did(tree, Parse(old(Rest()), bp))
      ensures !old(AtEnd()) ==> pos > old(pos)
      decreases |toks| - pos, 2
    {
      hide Parse, Loop, Led, Nud, Lbp, Erase;
      ghost var before := Rest();
      ParseStarts(before, bp);
      if AtEnd() {
        errors := errors + 1;
        tree := Atom(IntLit(0));
        return;
      }
      var t := toks[pos];
      Advance();
      assert before[0] == t && before[1..] == Rest();
      ghost var q := Nud(t, Rest());
      tree := ParseNud(t);
      ghost var left, taken := q.tree, q.errors;
      while pos < |toks| && Lbp(toks[pos]) > bp
        invariant Valid() && pos > old(pos) && tree == Erase(left)
        invariant taken >= 0 && errors == old(errors) + taken
        invariant Loop(left, Rest(), taken, bp) == Parse(before, bp)
        decreases |toks| - pos
      {
        ghost var here := Rest();
        var op := toks[pos];
        Advance();
        assert here[0] == op && here[1..] == Rest();
        LoopSteps(left, here, taken, bp);
        q := Led(left, op, Rest());
        tree := ParseLed(tree, op, left);
        left, taken := q.tree, taken + q.errors;
      }
      LoopLeaves(left, Rest(), taken, bp);
    }

    /** `nud`: the token `t` has been consumed. */
    method ParseNud(t: Token) returns (tree: Tree)
      requires Valid()
      modifies this
      ensures Did(tree, Nud(t, old(Rest())))
      decreases |toks| - pos + 1, 0
    {
      hide Parse, Expect, IsAtom, IsPrefix;
      if IsAtom(t) {
        tree := Atom(t);
      } else if IsPrefix(t) {
        tree := ParseExpr(PREFIX);
        if t != Plus { tree := Prefix(t, tree); }
      } else if t == LParen {
        tree := ParseExpr(0);
        ExpectToken(RParen);
      } else {
        errors := errors + 1;
        tree := Atom(IntLit(0));
      }
    }

    /** `led`: the token `t` has been consumed; `was` is the concrete tree of `left`. */
    method ParseLed(left: Tree, t: Token, ghost was: Tree) returns (tree: Tree)
      requires Valid() && left == Erase(was)
      modifies this
      ensures Did(tree, Led(was, t, old(Rest())))
      decreases |toks| - pos + 1, 0
    {
      hide Parse, Led, ExpectName, IsInfix, Lbp, Erase;
      if IsInfix(t) {
        InfixParsed(was, t, Rest());
        var right := ParseExpr(Rbp(t));
        tree := Infix(t, left, right);
      } else if t == Question {
        tree := ParseTernary(left, was);
      } else if t == LParen {
        tree := ParseCall(left, was);
      } else if t == LBracket {
        tree := ParseIndex(left, was);
      } else if t == Dot || t == Arrow {
        OtherParsed(was, t, Rest());
        var name := ExpectIdent();
        tree := Member(left, t, name);
      } else if t == PlusPlus || t == MinusMinus {
        OtherParsed(was, t, Rest());
        tree := Postfix(t, left);
      } else {
        OtherParsed(was, t, Rest());
        errors := errors + 1;
        tree := left;
      }
    }

    method ParseTernary(left: Tree, ghost was: Tree) returns (tree: Tree)
      requires Valid() && left == Erase(was)
      modifies this
      ensures Did(tree, Led(was, Question, old(Rest())))
      decreases |toks| - pos, 4
    {
      hide Parse, Args, Expect;
      var a := ParseExpr(0);
      ExpectToken(Colon);
      var b := ParseExpr(Lbp(Question) - 1);
      tree := Ternary(left, a, b);
    }

    method ParseIndex(left: Tree, ghost was: Tree) returns (tree: Tree)
      requires Valid() && left == Erase(was)
      modifies this
      ensures Did(tree, Led(was, LBracket, old(Rest())))
      decreases |toks| - pos, 4
    {
      hide Parse, Args, Expect;
      var i := ParseExpr(0);
      ExpectToken(RBracket);
      tree := Index(left, i);
    }

    /** A call: each turn of the loop takes an argument and the comma after it. */
    method ParseCall(left: Tree, ghost was: Tree) returns (tree: Tree)
      requires Valid() && left == Erase(was)
      modifies this
      ensures Did(tree, Led(was, LParen, old(Rest())))
      decreases |toks| - pos, 4
    {
      hide Parse, Args, Expect, Led;
      CallStarts(was, Rest());
      ghost var start := Rest();
      if Check(RParen) {
        assert start[0] == RParen;
        Advance();
        return Call(left, []);
      }
      assert !(start != [] && start[0] == RParen);
      var args := ParseArgs();
      ExpectToken(RParen);
      tree := Call(left, args);
    }

    method ParseArgs() returns (args: seq<Tree>)
      requires Valid()
      modifies this
      ensures Valid() && pos >= old(pos)
      ensures var (ts, rest, n) := Args(old(Rest()));
              args == EraseAll(ts) && Rest() == rest && errors == old(errors) + n
      decreases |toks| - pos, 3
    {
      hide Parse;
      var e := ParseExpr(Lbp(Comma));
      ghost var done, here, counted := [Parse(old(Rest()), Lbp(Comma)).tree], Rest(), errors - old(errors);
      args := [e];
      while Check(Comma)
        invariant Valid() && pos >= old(pos) && counted >= 0 && errors == old(errors) + counted
        invariant args == EraseAll(done)
        invariant Args(old(Rest())) == ArgsTail(done, Rest(), counted)
        decreases |toks| - pos
      {
        here := Rest();
        assert here[0] == Comma;
        Advance();
        ghost var q := Parse(Rest(), Lbp(Comma));
        TailStep(done, here, counted);
        e := ParseExpr(Lbp(Comma));
        EraseSnoc(done, q.tree);
        args := args + [e];
        done, counted := done + [q.tree], counted + q.errors;
      }
      assert !(Rest() != [] && Rest()[0] == Comma);
    }
  }

  lemma ParseStarts(toks: seq<Token>, bp: nat)
    ensures Erase(Missing) == Atom(IntLit(0))
    ensures Parse(toks, bp) == if toks == [] then Parsed(Missing, [], 1)
                               else var q := Nud(toks[0], toks[1..]); Loop(q.tree, q.rest, q.errors, bp)
  {
    hide Nud, Loop;
  }

  lemma LoopSteps(left: Tree, toks: seq<Token>, n: nat, bp: nat)
    requires toks != [] && Lbp(toks[0]) > bp
    ensures var q := Led(left, toks[0], toks[1..]); Loop(left, toks, n, bp) == Loop(q.tree, q.rest, n + q.errors, bp)
  {
    hide Led, Lbp;
  }

  lemma LoopLeaves(left: Tree, toks: seq<Token>, n: nat, bp: nat)
    requires toks == [] || Lbp(toks[0]) <= bp
    ensures Loop(left, toks, n, bp) == Parsed(left, toks, n)
  {
    hide Led, Lbp;
  }

  lemma InfixParsed(left: Tree, t: Token, rest: seq<Token>)
    requires IsInfix(t)
    ensures var q := Parse(rest, Rbp(t));
            && Led(left, t, rest) == Parsed(Infix(t, left, q.tree), q.rest, q.errors)
            && Erase(Infix(t, left, q.tree)) == Infix(t, Erase(left), Erase(q.tree))
  {
    hide Parse, Args, Expect, ExpectName;
  }

  /** The member and postfix forms, and the report of any token that continues nothing. */
  lemma OtherParsed(left: Tree, t: Token, rest: seq<Token>)
    requires !IsInfix(t)
    ensures t == Dot || t == Arrow ==>
              var (name, rest1, n) := ExpectName(rest);
              && Led(left, t, rest) == Parsed(Member(left, t, name), rest1, n)
              && Erase(Member(left, t, name)) == Member(Erase(left), t, name)
    ensures t == PlusPlus || t == MinusMinus ==>
              Led(left, t, rest) == Parsed(Postfix(t, left), rest, 0) && Erase(Postfix(t, left)) == Postfix(t, Erase(left))
    ensures t !in {Question, LParen, LBracket, Dot, Arrow, PlusPlus, MinusMinus} ==>
              Led(left, t, rest) == Parsed(left, rest, 1)
  {
    hide Parse, Args, Expect, ExpectName, IsInfix;
  }

  lemma CallStarts(left: Tree, rest: seq<Token>)
    ensures EraseAll([]) == []
    ensures Led(left, LParen, rest) ==
            if rest != [] && rest[0] == RParen then Parsed(Call(left, []), rest[1..], 0)
            else
              var (args, rest1, n) := Args(rest);
              var (rest2, m) := Expect(rest1, RParen);
              Parsed(Call(left, args), rest2, n + m)
  {
    hide Args, Expect;
  }

  /** The arguments still to come, behind those already parsed. */
  function ArgsTail(done: seq<Tree>, rest: seq<Token>, n: nat): (seq<Tree>, seq<Token>, nat) {
    if rest != [] && rest[0] == Comma then
      var (more, rest1, m) := Args(rest[1..]);
      (done + more, rest1, n + m)
    else (done, rest, n)
  }

  lemma TailStep(done: seq<Tree>, rest: seq<Token>, n: nat)
    requires rest != [] && rest[0] == Comma
    ensures var q := Parse(rest[1..], Lbp(Comma));
            ArgsTail(done, rest, n) == ArgsTail(done + [q.tree], q.rest, n + q.errors)
  {
    hide Parse;
    var q := Parse(rest[1..], Lbp(Comma));
    if q.rest != [] && q.rest[0] == Comma {
      var (more, rest1, m) := Args(q.rest[1..]);
      assert done + ([q.tree] + more) == (done + [q.tree]) + more;
    }
  }

  lemma {:induction false} EraseSnoc(ts: seq<Tree>, t: Tree)
    ensures EraseAll(ts + [t]) == EraseAll(ts) + [Erase(t)]
  {
    assert forall i :: 0 <= i < |ts| ==> (ts + [t])[i] == ts[i];
  }

  /**
   Parse a whole text. It is accepted exactly when the grammar derives it, and the tree is that of
   the derivation, without its parentheses.
   */
  method ParseInput(input: seq<Token>) returns (tree: Tree, ok: bool)
    ensures ok <==> exists t: Tree :: CGrammar.Derives(CGrammar.Expression, t, false) && Flatten(t) == input
    ensures forall t: Tree :: CGrammar.Derives(CGrammar.Expression, t, false) && Flatten(t) == input ==> tree == Erase(t)
  {
    hide Parse, Erase, Flatten;
    var p := new Parser(input);
    tree := p.ParseExpr(0);
    ok := p.errors == 0 && p.AtEnd();
    ghost var q := Parse(input, 0);
    if ok {
      CGrammar.ParseDerives(input, q.tree);
      assert q == Parsed(q.tree, [], 0);
    }
    forall t: Tree | CGrammar.Derives(CGrammar.Expression, t, false) && Flatten(t) == input
      ensures ok && tree == Erase(t)
    {
      CGrammar.ParseDerives(input, t);
    }
  }
}
