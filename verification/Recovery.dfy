/**
 The whole parser on every finite token stream, valid or not: declarations, declarators, structs,
 enums, initializers, statements and expressions, as the control flow that consumes tokens and
 reports errors. The syntax tree is left out, except for what decides the way: which names are
 types, and whether a declarator declares a function.

 Every method terminates by the tokens left and a rank, gives back what it saves, and consumes
 well-bracketed text unless it reports an error.
 */
module Recovery {
  import opened Wrappers
  import opened Pratt
  import opened Syntax
  import opened Spine
  import opened FirstTokens
  import opened Places
  import opened DeclPlaces
  import opened StmtPlaces
  import opened Brackets
  import opened Names
  import opened Specifiers
  import opened Turns

  class Parser {
    const toks: seq<Tok>
    var pos: nat
    var errors: nat
    var scopes: Scopes
    var loopDepth: nat
    var switchDepth: nat

    /** The end of the input is no token of it. */
    ghost predicate Finite() {
      Key(Eof) !in toks
    }

    ghost predicate Valid()
      reads this`pos, this`scopes
    {
      pos <= |toks| && Finite() && scopes != []
    }

    constructor (input: seq<Tok>)
      requires Key(Eof) !in input
      ensures Valid() && toks == input && pos == 0 && errors == 0 && scopes == [[]] && loopDepth == switchDepth == 0
    {
      toks, pos, errors, scopes, loopDepth, switchDepth := input, 0, 0, [[]], 0, 0;
    }

    ghost function ScanAt(i: nat): Scan
      requires i <= |toks|
    {
      ScanAfter(toks[..i])
    }

    /** The brackets open before token `i`, outside of skipped operands. */
    ghost function OpenAt(i: nat): Option<seq<Token>>
      requires i <= |toks|
    {
      ScanAt(i).open
    }

    /** Token `i` is not part of a skipped operand. */
    ghost predicate CalmAt(i: nat)
      requires i <= |toks|
    {
      match ScanAt(i).skip
      case Reading => true
      case Keyword => i < |toks| ==> toks[i] != Plain(LParen)
      case Operand(_, _) => i == |toks|
    }

    /** Between two positions the brackets balance. */
    ghost predicate Level(from: nat, to: nat)
      requires from <= |toks| && to <= |toks|
    {
      CalmAt(from) ==> CalmAt(to) && OpenAt(to) == OpenAt(from)
    }

    /** Token `t` has been read outside of skipped operands. */
    ghost predicate Reads(from: nat, to: nat, t: Tok)
      requires from <= |toks| && to <= |toks|
    {
      CalmAt(from) && !Skips(t) ==>
        CalmAt(to) && OpenAt(to) == if IsBracket(t) then Push(OpenAt(from), t) else OpenAt(from)
    }

    /** What parsing from `from` has done so far. */
    twostate predicate Did(from: nat)
      reads this
    {
      && Valid() && from <= |toks| && old(pos) <= pos && old(errors) <= errors
      && loopDepth == old(loopDepth) && switchDepth == old(switchDepth)
      && old(scopes) != [] && |scopes| == |old(scopes)| && Outer(scopes) == old(Outer(scopes))
      && (errors == old(errors) ==> Level(from, pos))
    }

    // ----- what a call does on the text of a tree -----

    ghost function Types(): iset<string>
      reads this`scopes
    {
      TypesOf(scopes)
    }

    /** The tokens before `to` have been consumed without an error, and the names in `ts` are types now. */
    twostate predicate Took(to: nat, ts: iset<string>)
      reads this`pos, this`errors, this`scopes
    {
      pos == to && errors == old(errors) && Types() == ts
    }

    // ----- tokens -----

    function Peek(): Tok
      reads this`pos
    {
      if pos < |toks| then toks[pos] else Key(Eof)
    }

    predicate Check(t: Tok)
      reads this`pos
    {
      Peek() == t
    }

    predicate AtEnd()
      reads this`pos
    {
      pos >= |toks|
    }

    lemma OneScan(i: nat)
      requires i < |toks|
      ensures ScanAt(i + 1) == Next(ScanAt(i), toks[i])
    {
      assert toks[..i + 1][..i] == toks[..i];
    }

    lemma OneToken(i: nat)
      requires i < |toks|
      ensures Reads(i, i + 1, toks[i])
    {
      OneScan(i);
    }

    /** Past the end of the input the lexer goes on returning its end token without moving. */
    method Advance()
      requires Valid()
      modifies this`pos
      ensures Valid() && pos == if old(AtEnd()) then old(pos) else old(pos) + 1
      ensures !old(AtEnd()) ==> Reads(old(pos), pos, old(Peek()))
    {
      if !AtEnd() {
        OneToken(pos);
        pos := pos + 1;
      }
    }

    method MatchToken(t: Tok) returns (matched: bool)
      requires Valid() && t != Key(Eof)
      modifies this`pos
      ensures Valid() && matched == old(Check(t)) && pos == if matched then old(pos) + 1 else old(pos)
      ensures matched ==> Reads(old(pos), pos, t)
    {
      matched := Check(t);
      if matched { Advance(); }
    }

    method Report()
      modifies this`errors
      ensures errors == old(errors) + 1
    {
      errors := errors + 1;
    }

    /** A wrong token is reported and consumed, except at the end of the input. */
    method Expect(t: Tok)
      requires Valid() && t != Key(Eof)
      modifies this`pos, this`errors
      ensures Valid() && pos == if old(AtEnd()) then old(pos) else old(pos) + 1
      ensures errors == if old(Check(t)) then old(errors) else old(errors) + 1
      ensures errors == old(errors) ==> Reads(old(pos), pos, t)
    {
      if Check(t) {
        Advance();
      } else {
        Report();
        Advance();
      }
    }

    method ExpectName() returns (name: string)
      requires Valid()
      modifies this`pos, this`errors
      ensures Valid() && pos == if old(AtEnd()) then old(pos) else old(pos) + 1
      ensures errors == if old(IsName(Peek())) then old(errors) else old(errors) + 1
      ensures errors == old(errors) ==> Level(old(pos), pos)
    {
      name := "";
      if IsName(Peek()) {
        name := Peek().t.name;
      } else {
        Report();
      }
      Advance();
    }

    predicate IsTypeName(x: string)
      reads this`scopes
    {
      var s := Resolve(scopes, x);
      s.Some? && s.value.TypeName?
    }

    predicate IsTypeStart()
      reads this`pos, this`scopes
    {
      var t := Peek();
      StartsType(t) || (IsName(t) && IsTypeName(t.t.name))
    }

    /** A declaration is told from an expression by its first token. */
    lemma Starts()
      ensures StartsDeclaration(Peek(), Types()) ==> IsTypeStart()
      ensures StartsExpr(Peek(), Types()) ==> !IsTypeStart()
    {
      hide Resolve, Lbp;
    }

    method Define(x: string, s: Symbol)
      requires Valid()
      modifies this`scopes
      ensures Valid() && |scopes| == |old(scopes)| && Outer(scopes) == old(Outer(scopes))
      ensures Types() == Naming(old(Types()), x, s.TypeName?)
    {
      DefinedTypes(scopes, x, s);
      scopes := [[(x, s)] + scopes[0]] + scopes[1..];
    }

    // ----- skipping -----

    /** After the parenthesis that opens an operand: up to and including the one that closes it. */
    method SkipParens()
      requires Valid()
      modifies this`pos
      ensures Valid() && pos >= old(pos)
      ensures old(ScanAt(pos).skip.Operand? && ScanAt(pos).skip.depth == 1) ==>
                CalmAt(pos) && OpenAt(pos) == old(OpenAt(pos))
    {
      hide Push, ScanAfter;
      ghost var operand := ScanAt(pos).skip.Operand? && ScanAt(pos).skip.depth == 1;
      var depth := 1;
      while depth > 0 && !AtEnd()
        invariant Valid() && pos >= old(pos) && depth >= 0
        invariant operand ==> OpenAt(pos) == old(OpenAt(pos))
        invariant operand ==> if depth == 0 then ScanAt(pos).skip == Reading
                              else ScanAt(pos).skip.Operand? && ScanAt(pos).skip.depth == depth
        decreases |toks| - pos
      {
        OneScan(pos);
        if Check(Plain(LParen)) {
          depth := depth + 1;
        } else if Check(Plain(RParen)) {
          depth := depth - 1;
        }
        Advance();
      }
    }

    /** An attribute keyword or `typeof`, with its operand if there is one. */
    method SkipKeyword()
      requires Valid() && Skips(Peek())
      modifies this`pos
      ensures Valid() && pos > old(pos) && Level(old(pos), pos)
    {
      hide Push, ScanAfter;
      OneScan(pos);
      Advance();
      if Check(Plain(LParen)) {
        OneScan(pos);
        Advance();
        SkipParens();
      }
    }

    method SkipAttributes()
      requires Valid()
      modifies this`pos
      ensures Valid() && pos >= old(pos) && (old(IsAttribute(Peek())) <==> pos > old(pos))
      ensures Level(old(pos), pos)
    {
      hide Push, ScanAfter;
      while IsAttribute(Peek())
        invariant Valid() && pos >= old(pos) && Level(old(pos), pos)
        invariant pos > old(pos) ==> old(IsAttribute(Peek()))
        decreases |toks| - pos
      {
        SkipKeyword();
      }
    }

    method SkipPragma()
      requires Valid() && Check(Key(Pragma))
      modifies this`pos, this`errors
      ensures Did(old(pos)) && pos > old(pos)
    {
      hide Push, ScanAfter, CalmAt, OpenAt, Finite, Outer;
      Advance();
      ghost var at := pos;
      var m := MatchToken(Plain(LParen));
      if m {
        if Peek().Plain? && Peek().t.StrLit? { Advance(); }
        Expect(Plain(RParen));
        Closes(OpenAt(at), Plain(LParen), Plain(RParen));
      }
      m := MatchToken(Plain(Semicolon));
    }

    // ----- expressions -----

    method ParseExpr(bp: nat, ghost w: Option<Expr>)
      requires Valid()
      modifies this
      ensures Did(old(pos)) && (!old(AtEnd()) ==> pos > old(pos))
      ensures old(w.Some? && ExprAt(toks, pos, w.value, Types(), bp)) ==> Took(old(pos) + |FlatExpr(w.value)|, old(Types()))
      decreases |toks| - pos, 1
    {
      hide Push, ScanAfter, CalmAt, OpenAt, Finite, Outer, ExprAt, LedAt, NudAt, FlatExpr, Rest, TypesOf, Naming, Lbp,
           SpineAt, Depth;
      ghost var start, ts := pos, Types();
      ghost var on := w.Some? && ExprAt(toks, pos, w.value, ts, bp);
      if on {
        SpineStarts(toks, start, w.value, ts, bp);
      }
      if AtEnd() {
        Report();
        return;
      }
      var t := Peek();
      Advance();
      ghost var k := if on then Depth(w.value) else 0;
      ParseNud(t, if on then Some(SpineAt(w.value, k)) else None);
      while Power(Peek()) > bp
        invariant Did(old(pos)) && pos > old(pos)
        invariant on ==> 0 <= k <= Depth(w.value) && Took(start + |FlatExpr(SpineAt(w.value, k))|, ts)
        decreases |toks| - pos
      {
        ghost var p: Option<Expr> := None;
        if on {
          SpineTurn(toks, start, w.value, ts, bp, k);
          p := Some(SpineAt(w.value, k - 1));
        }
        var op := Peek();
        Advance();
        ParseLed(op, p);
        k := if on then k - 1 else 0;
      }
      if on {
        SpineTurn(toks, start, w.value, ts, bp, k);
      }
    }

    /** A declaration specifier and an abstract declarator. */
    method ParseTypeName(ghost w: Option<CType>)
      requires Valid()
      modifies this
      ensures Did(old(pos))
      ensures old(w.Some? && TypeAt(toks, pos, w.value, Types())) ==> Took(old(pos) + |FlatType(w.value)|, old(Types()))
      decreases |toks| - pos, 5
    {
      hide Push, ScanAfter, CalmAt, OpenAt, Finite, Outer, TypesOf, Naming, TypeAt, FlatType, SpecsAt, FlatSpecs,
           AfterSpecs, DeclaratorAt, FlatDeclarator, BadCombination;
      ghost var on := w.Some? && TypeAt(toks, pos, w.value, Types());
      if on {
        TypeParts(toks, pos, w.value, Types());
      }
      var ds := ParseDeclSpec(if on then Some(w.value.specs) else None);
      var base := ResolveSpec(ds);
      var _, _ := ParseDeclarator(base, if on then Some(w.value.d) else None);
    }

    /** `nud`: `t` has been consumed. */
    method ParseNud(t: Tok, ghost w: Option<Expr>)
      requires Valid() && pos > 0 && toks[pos - 1] == t
      modifies this
      ensures Did(old(pos) - 1)
      ensures old(w.Some? && NudAt(toks, pos - 1, w.value, Types())) ==>
                Took(old(pos) - 1 + |FlatExpr(w.value)|, old(Types()))
      decreases |toks| - pos + 1, 0
    {
      hide Push, ScanAfter, CalmAt, OpenAt, Finite, Outer, ExprAt, NudAt, FlatExpr, TypesOf, Naming;
      ghost var start := pos - 1;
      ghost var on := w.Some? && NudAt(toks, start, w.value, Types());
      OneToken(start);
      if on {
        NudKind(toks, start, w.value, Types());
      }
      if t == Key(Alignof) {
        ParseAlignof(w);
      } else if t == Key(Sizeof) {
        ParseSizeof(w);
      } else if t == Plain(LParen) {
        ParseParen(w);
      } else if t.Plain? && IsAtom(t.t) {
      } else if t.Plain? && IsPrefix(t.t) {
        ParsePrefix(w);
      } else {
        Report();
      }
    }

    /** The operand of a prefix operator. */
    method ParsePrefix(ghost w: Option<Expr>)
      requires Valid() && pos > 0
      modifies this
      ensures Did(old(pos))
      ensures old(w.Some? && w.value.UnaryOp? && NudAt(toks, pos - 1, w.value, Types())) ==>
                Took(old(pos) - 1 + |FlatExpr(w.value)|, old(Types()))
      decreases |toks| - pos, 6
    {
      hide Push, ScanAfter, CalmAt, OpenAt, Finite, Outer, ExprAt, NudAt, FlatExpr, TypesOf, Naming, IsPrefix, IsAtom;
      ghost var on := w.Some? && w.value.UnaryOp? && NudAt(toks, pos - 1, w.value, Types());
      if on {
        UnaryHere(toks, pos - 1, w.value, Types());
      }
      ParseExpr(PREFIX, if on then Some(w.value.e) else None);
    }

    method ParseAlignof(ghost w: Option<Expr>)
      requires Valid() && pos > 0
      modifies this
      ensures Did(old(pos))
      ensures old(w.Some? && w.value.AlignofType? && NudAt(toks, pos - 1, w.value, Types())) ==>
                Took(old(pos) - 1 + |FlatExpr(w.value)|, old(Types()))
      decreases |toks| - pos, 6
    {
      hide Push, ScanAfter, CalmAt, OpenAt, Finite, Outer, ExprAt, NudAt, FlatExpr, TypesOf, Naming, FlatType, TypeAt;
      ghost var on := w.Some? && w.value.AlignofType? && NudAt(toks, pos - 1, w.value, Types());
      if on {
        TypeOfHere(toks, pos - 1, w.value, Types());
        TypeStarts(toks, pos + 1, w.value.ty, Types());
      }
      Closes(OpenAt(pos), Plain(LParen), Plain(RParen));
      Expect(Plain(LParen));
      ParseTypeName(if on then Some(w.value.ty) else None);
      Expect(Plain(RParen));
    }

    method ParseSizeof(ghost w: Option<Expr>)
      requires Valid() && pos > 0
      modifies this
      ensures Did(old(pos))
      ensures old(w.Some? && (w.value.SizeofType? || w.value.SizeofGroup? || w.value.SizeofExpr?)
                  && NudAt(toks, pos - 1, w.value, Types())) ==>
                Took(old(pos) - 1 + |FlatExpr(w.value)|, old(Types()))
      decreases |toks| - pos, 6
    {
      hide Push, ScanAfter, CalmAt, OpenAt, Finite, Outer, ExprAt, NudAt, FlatExpr, TypesOf, Naming, FlatType, TypeAt,
           StartsType, IsTypeStart, StartsExpr, StartsDeclaration;
      ghost var ty, group, operand := SizeofParts(w);
      Closes(OpenAt(pos), Plain(LParen), Plain(RParen));
      if Check(Plain(LParen)) {
        Advance();
        Starts();
        if IsTypeStart() {
          ParseTypeName(ty);
        } else {
          ParseExpr(0, group);
        }
        Expect(Plain(RParen));
      } else {
        ParseExpr(PREFIX, operand);
      }
    }

    /** What stands after `sizeof`. */
    lemma SizeofParts(w: Option<Expr>) returns (ty: Option<CType>, group: Option<Expr>, operand: Option<Expr>)
      requires pos > 0
      ensures w.Some? && NudAt(toks, pos - 1, w.value, Types()) ==>
                && (w.value.SizeofType? ==>
                      && ty == Some(w.value.ty) && Check(Plain(LParen)) && TypeAt(toks, pos + 1, w.value.ty, Types())
                      && StartsDeclaration(TokAt(toks, pos + 1), Types())
                      && TokAt(toks, pos + 1 + |FlatType(w.value.ty)|) == Plain(RParen)
                      && |FlatExpr(w.value)| == 3 + |FlatType(w.value.ty)|)
                && (w.value.SizeofGroup? ==>
                      && group == Some(w.value.e) && Check(Plain(LParen)) && ExprAt(toks, pos + 1, w.value.e, Types(), 0)
                      && StartsExpr(TokAt(toks, pos + 1), Types())
                      && TokAt(toks, pos + 1 + |FlatExpr(w.value.e)|) == Plain(RParen)
                      && |FlatExpr(w.value)| == 3 + |FlatExpr(w.value.e)|)
                && (w.value.SizeofExpr? ==>
                      && operand == Some(w.value.e) && !Check(Plain(LParen))
                      && ExprAt(toks, pos, w.value.e, Types(), PREFIX) && |FlatExpr(w.value)| == 1 + |FlatExpr(w.value.e)|)
    {
      hide ExprAt, NudAt, FlatExpr, TypesOf, FlatType, TypeAt, StartsExpr, StartsDeclaration;
      ty, group, operand := None, None, None;
      if w.Some? && NudAt(toks, pos - 1, w.value, Types()) {
        var e := w.value;
        if e.SizeofType? {
          TypeOfHere(toks, pos - 1, e, Types());
          TypeStarts(toks, pos + 1, e.ty, Types());
          ty := Some(e.ty);
        } else if e.SizeofGroup? {
          SizeofGroupHere(toks, pos - 1, e, Types());
          SpineStarts(toks, pos + 1, e.e, Types(), 0);
          group := Some(e.e);
        } else if e.SizeofExpr? {
          SizeofExprHere(toks, pos - 1, e, Types());
          operand := Some(e.e);
        }
      }
    }

    /** What stands after the parenthesis of a group, a cast or a compound literal. */
    lemma ParenParts(w: Option<Expr>)
      returns (ty: Option<CType>, group: Option<Expr>, operand: Option<Expr>, body: Option<Braces>)
      requires pos > 0
      ensures w.Some? && NudAt(toks, pos - 1, w.value, Types()) ==>
                && (w.value.Group? ==>
                      && group == Some(w.value.e) && ExprAt(toks, pos, w.value.e, Types(), 0)
                      && StartsExpr(Peek(), Types()) && TokAt(toks, pos + |FlatExpr(w.value.e)|) == Plain(RParen)
                      && |FlatExpr(w.value)| == |FlatExpr(w.value.e)| + 2)
                && (w.value.CastTo? || w.value.Compound? ==>
                      && ty == Some(w.value.ty) && TypeAt(toks, pos, w.value.ty, Types())
                      && StartsDeclaration(Peek(), Types()) && TokAt(toks, pos + |FlatType(w.value.ty)|) == Plain(RParen))
                && (w.value.CastTo? ==>
                      var next := pos + |FlatType(w.value.ty)| + 1;
                      && operand == Some(w.value.e) && ExprAt(toks, next, w.value.e, Types(), PREFIX)
                      && TokAt(toks, next) != Plain(LBrace) && pos - 1 + |FlatExpr(w.value)| == next + |FlatExpr(w.value.e)|)
                && (w.value.Compound? ==>
                      var next := pos + |FlatType(w.value.ty)| + 1;
                      && body == Some(w.value.body) && BracesAt(toks, next, w.value.body, Types())
                      && TokAt(toks, next) == Plain(LBrace)
                      && pos - 1 + |FlatExpr(w.value)| == next + |FlatBraces(w.value.body)|)
    {
      hide ExprAt, NudAt, FlatExpr, TypesOf, FlatType, TypeAt, FlatBraces, BracesAt, StartsExpr, StartsDeclaration;
      ty, group, operand, body := None, None, None, None;
      if w.Some? && NudAt(toks, pos - 1, w.value, Types()) {
        var e := w.value;
        if e.Group? {
          GroupHere(toks, pos - 1, e, Types());
          SpineStarts(toks, pos, e.e, Types(), 0);
          group := Some(e.e);
        } else if e.CastTo? {
          CastHere(toks, pos - 1, e, Types());
          TypeStarts(toks, pos, e.ty, Types());
          ty, operand := Some(e.ty), Some(e.e);
        } else if e.Compound? {
          CompoundHere(toks, pos - 1, e, Types());
          TypeStarts(toks, pos, e.ty, Types());
          ty, body := Some(e.ty), Some(e.body);
        }
      }
    }

    /** A parenthesis has been consumed: a cast, a compound literal or an expression. */
    method ParseParen(ghost w: Option<Expr>)
      requires Valid() && pos > 0 && toks[pos - 1] == Plain(LParen)
      modifies this
      ensures Did(old(pos) - 1)
      ensures old(w.Some? && (w.value.Group? || w.value.CastTo? || w.value.Compound?)
                  && NudAt(toks, pos - 1, w.value, Types())) ==>
                Took(old(pos) - 1 + |FlatExpr(w.value)|, old(Types()))
      decreases |toks| - pos, 6
    {
      hide Push, ScanAfter, CalmAt, OpenAt, Finite, Outer, ExprAt, NudAt, FlatExpr, TypesOf, Naming, FlatType, TypeAt,
           StartsType, IsTypeStart, FlatBraces, BracesAt, StartsExpr, StartsDeclaration;
      OneToken(pos - 1);
      Closes(OpenAt(pos - 1), Plain(LParen), Plain(RParen));
      ghost var ty, group, operand, body := ParenParts(w);
      Starts();
      if IsTypeStart() {
        ParseTypeName(ty);
        Expect(Plain(RParen));
        if Check(Plain(LBrace)) {
          ParseInitList(body);
        } else {
          ParseExpr(PREFIX, operand);
        }
      } else {
        ParseExpr(0, group);
        Expect(Plain(RParen));
      }
    }

    /** `led`: `t` has been consumed. */
    method ParseLed(t: Tok, ghost w: Option<Expr>)
      requires Valid() && pos > 0 && toks[pos - 1] == t
      modifies this
      ensures Did(old(pos) - 1)
      ensures old(w.Some? && LedAt(toks, pos - 1, w.value, Types())) ==>
                Took(old(pos) + |Rest(w.value)|, old(Types()))
      decreases |toks| - pos + 1, 0
    {
      hide Push, ScanAfter, CalmAt, OpenAt, Finite, Outer, ExprAt, LedAt, FlatExpr, TypesOf, Naming, Rest, IsInfix,
           Lbp, Rbp;
      ghost var start := pos - 1;
      ghost var on := w.Some? && LedAt(toks, start, w.value, Types());
      OneToken(start);
      LedTokens(t);
      if on {
        LedKind(toks, start, w.value, Types());
      }
      if t.Plain? && IsInfix(t.t) {
        if on {
          InfixHere(toks, start, w.value, Types());
        }
        ParseExpr(Rbp(t.t), if on then Some(w.value.r) else None);
      } else if t == Plain(Question) {
        ParseChoice(w);
      } else if t == Plain(LParen) {
        ParseArgs(w);
      } else if t == Plain(LBracket) {
        if on {
          SubscriptHere(toks, start, w.value, Types());
        }
        Closes(OpenAt(start), Plain(LBracket), Plain(RBracket));
        ParseExpr(0, if on then Some(w.value.i) else None);
        Expect(Plain(RBracket));
      } else if t == Plain(Dot) || t == Plain(Arrow) {
        if on {
          SelectHere(toks, start, w.value, Types());
        }
        var _ := ExpectName();
      } else if t == Plain(PlusPlus) || t == Plain(MinusMinus) {
        if on {
          SelectHere(toks, start, w.value, Types());
        }
      } else {
        Report();
      }
    }

    /** The two branches of a conditional expression. */
    method ParseChoice(ghost w: Option<Expr>)
      requires Valid() && pos > 0 && toks[pos - 1] == Plain(Question)
      modifies this
      ensures Did(old(pos))
      ensures old(w.Some? && w.value.Choice? && LedAt(toks, pos - 1, w.value, Types())) ==>
                Took(old(pos) + |Rest(w.value)|, old(Types()))
      decreases |toks| - pos, 6
    {
      hide Push, ScanAfter, CalmAt, OpenAt, Finite, Outer, ExprAt, LedAt, FlatExpr, TypesOf, Naming, Rest, Lbp;
      QuestionPower();
      ghost var on := w.Some? && w.value.Choice? && LedAt(toks, pos - 1, w.value, Types());
      if on {
        ChoiceHere(toks, pos - 1, w.value, Types());
      }
      ParseExpr(0, if on then Some(w.value.a) else None);
      Expect(Plain(Colon));
      ParseExpr(Lbp(Question) - 1, if on then Some(w.value.b) else None);
    }

    method ParseArgs(ghost w: Option<Expr>)
      requires Valid() && pos > 0 && toks[pos - 1] == Plain(LParen)
      modifies this
      ensures Did(old(pos) - 1)
      ensures old(w.Some? && w.value.CallOf? && LedAt(toks, pos - 1, w.value, Types())) ==>
                Took(old(pos) + |Rest(w.value)|, old(Types()))
      decreases |toks| - pos, 6
    {
      hide Push, ScanAfter, CalmAt, OpenAt, Finite, Outer, ExprAt, LedAt, FlatExpr, FlatArgs, ArgsAt, TypesOf, Naming,
           Rest, Lbp;
      ghost var on := w.Some? && w.value.CallOf? && LedAt(toks, pos - 1, w.value, Types());
      ghost var ts, end, args := Types(), pos, [];
      if on {
        CallHere(toks, pos - 1, w.value, ts);
        args := w.value.args;
        end := pos + |FlatArgs(args)|;
        ArgsFirst(toks, pos, args, ts);
      }
      OneToken(pos - 1);
      Closes(OpenAt(pos - 1), Plain(LParen), Plain(RParen));
      if !Check(Plain(RParen)) {
        var more := true;
        while more
          invariant Did(old(pos))
          invariant on ==> if more then args != [] && ArgsAt(toks, pos, args, ts) && pos + |FlatArgs(args)| == end
                                        && Took(pos, ts)
                           else Took(end, ts)
          decreases |toks| - pos, more
        {
          if on {
            ArgsStep(toks, pos, args, ts);
          }
          ParseExpr(Lbp(Comma), if on then Some(args[0]) else None);
          more := MatchToken(Plain(Comma));
          args := if args == [] then [] else args[1..];
        }
      }
      Expect(Plain(RParen));
    }

    // ----- declaration specifiers -----

    method ResolveSpec(ds: DeclSpec) returns (base: Shape)
      requires Valid()
      modifies this`errors
      ensures Valid() && errors == old(errors) + if BadCombination(ds) then 1 else 0
    {
      if BadCombination(ds) { Report(); }
      base := if ds.base.Some? then ds.base.value else Object;
    }

    method ParseDeclSpec(ghost w: Option<seq<Spec>>) returns (ds: DeclSpec)
      requires Valid()
      modifies this
      ensures Did(old(pos)) && (old(IsTypeStart()) ==> pos > old(pos))
      ensures old(w.Some? && SpecsAt(toks, pos, w.value, Types())) ==>
                && Took(old(pos) + |FlatSpecs(w.value)|, AfterSpecs(w.value, old(Types())))
                && !BadCombination(ds) && (ds.storage == Some(Typedef) <==> IsTypedef(w.value))
      decreases |toks| - pos, 3
    {
      hide Push, ScanAfter, CalmAt, OpenAt, Finite, Outer, SpecsAt, SpecsFrom, SpecAt, SpecsEnd, FlatSpecs, FlatSpec,
           AfterSpecs, AfterSpec, TypesOf, Naming, Tallied, Admits, Adds, BadCombination, IsTypedef, OneType,
           StartsType;
      ghost var on := w.Some? && SpecsAt(toks, pos, w.value, Types());
      ghost var specs := if on then w.value else [];
      ghost var i, end, after := 0, pos + |FlatSpecs(specs)|, AfterSpecs(specs, Types());
      ds := DeclSpec(None, {}, false, None);
      var seenType, more := false, true;
      if on {
        SpecsBegin(toks, pos, specs, Types());
        NoneYet();
        assert specs[..0] == [];
      }
      while more
        invariant Did(old(pos))
        invariant pos > old(pos) || (pos == old(pos) && !seenType && scopes == old(scopes)
                                     && (more || !old(IsTypeStart())))
        invariant on ==> SpecsGo(ds, seenType, specs, i, end, after) && errors == old(errors)
        invariant on && !more ==> i == |specs|
        decreases |toks| - pos, more
      {
        ghost var ds0, seen0 := ds, seenType;
        if on {
          SpecsTurn(ds, seenType, specs, i, end, after);
        }
        ds, seenType, more := ParseOneSpec(ds, seenType, if on && i < |specs| then Some(specs[i]) else None);
        if on && i < |specs| {
          TallyAdds(ds0, seen0, specs, i, ds, seenType);
          i := i + 1;
        }
      }
      if on {
        SpecsOver(ds, seenType, specs, end, after);
      }
    }

    /** The loop over the specifiers has done `i` of them. */
    ghost predicate SpecsGo(ds: DeclSpec, seen: bool, specs: seq<Spec>, i: int, end: nat, after: iset<string>)
      reads this
    {
      && 0 <= i <= |specs| && SpecsFrom(toks, pos, specs, i, Types()) && Tallied(ds, seen, specs[..i])
      && pos + |FlatSpecs(specs[i..])| == end && AfterSpecs(specs[i..], Types()) == after
    }

    /** One turn of it. */
    lemma SpecsTurn(ds: DeclSpec, seen: bool, specs: seq<Spec>, i: int, end: nat, after: iset<string>)
      requires SpecsGo(ds, seen, specs, i, end, after)
      ensures i < |specs| ==>
                && SpecAt(toks, pos, specs[i], Types()) && Tallied(ds, seen, specs[..i]) && Admits(ds, seen, specs[i])
                && SpecsFrom(toks, pos + |FlatSpec(specs[i])|, specs, i + 1, AfterSpec(specs[i], Types()))
                && pos + |FlatSpec(specs[i])| + |FlatSpecs(specs[i + 1..])| == end
                && AfterSpecs(specs[i + 1..], AfterSpec(specs[i], Types())) == after
      ensures i == |specs| ==> Peek().Plain? && (IsName(Peek()) && IsTypeName(Peek().t.name) ==> seen)
    {
      hide SpecsFrom, SpecAt, FlatSpecs, FlatSpec, AfterSpecs, AfterSpec, Tallied, Admits, OneType, Resolve, Settled;
      SpecsKnown(specs, i);
      if i < |specs| {
        SpecsStep(toks, pos, specs, i, Types());
        TallyAdmits(ds, seen, specs, i);
      } else {
        SpecsDone(toks, pos, specs, Types());
        assert specs[..i] == specs;
        TallyEnds(ds, seen, specs);
      }
    }

    lemma SpecsKnown(specs: seq<Spec>, i: int)
      requires i >= 0 && SpecsFrom(toks, pos, specs, i, Types())
      ensures OneType(specs)
    {
    }

    lemma SpecsOver(ds: DeclSpec, seen: bool, specs: seq<Spec>, end: nat, after: iset<string>)
      requires SpecsGo(ds, seen, specs, |specs|, end, after)
      ensures pos == end && Types() == after
      ensures !BadCombination(ds) && (ds.storage == Some(Typedef) <==> IsTypedef(specs))
    {
      hide SpecsFrom, FlatSpecs, AfterSpecs, Tallied, OneType, Resolve, Settled, BadCombination, IsTypedef;
      SpecsKnown(specs, |specs|);
      SpecsDone(toks, pos, specs, Types());
      assert specs[..|specs|] == specs;
      TallyEnds(ds, seen, specs);
    }

    /** One turn of the loop; `more` is false when the token is not part of the specifier. */
    method ParseOneSpec(ds: DeclSpec, seenType: bool, ghost w: Option<Spec>)
      returns (ds1: DeclSpec, seen1: bool, more: bool)
      requires Valid()
      modifies this
      ensures Did(old(pos)) && more == (pos > old(pos))
      ensures !more ==> ds1 == ds && seen1 == seenType && scopes == old(scopes)
      ensures old(StartsType(Peek())) ==> more
      ensures old(IsTypeStart()) && !seenType ==> more
      ensures old(w.Some? && SpecAt(toks, pos, w.value, Types())) && Admits(ds, seenType, w.value) ==>
                && more && Took(old(pos) + |FlatSpec(w.value)|, AfterSpec(w.value, old(Types())))
                && Adds(ds, seenType, w.value, ds1, seen1)
      ensures old(Peek().Plain? && (IsName(Peek()) && IsTypeName(Peek().t.name) ==> seenType)) ==>
                !more && errors == old(errors)
      decreases |toks| - pos, 2
    {
      hide Push, ScanAfter, CalmAt, OpenAt, Finite, Outer, SpecAt, FlatSpec, AfterSpec, TypesOf, Naming, Admits, Adds,
           StartsType, Resolve;
      var t := Peek();
      PlainStartsNoType(t);
      if t.Plain? {
        ds1, seen1, more := ParseNameSpec(ds, seenType, w);
      } else {
        ds1, seen1, more := ParseWordSpec(ds, seenType, t.k, w);
      }
    }

    /** The name of a type, while there is none yet. */
    method ParseNameSpec(ds: DeclSpec, seenType: bool, ghost w: Option<Spec>)
      returns (ds1: DeclSpec, seen1: bool, more: bool)
      requires Valid() && Peek().Plain?
      modifies this`pos
      ensures Did(old(pos)) && more == (pos > old(pos))
      ensures !more ==> ds1 == ds && seen1 == seenType
      ensures more == (old(IsName(Peek()) && IsTypeName(Peek().t.name)) && !seenType)
      ensures old(w.Some? && SpecAt(toks, pos, w.value, Types())) && Admits(ds, seenType, w.value) ==>
                && more && Took(old(pos) + |FlatSpec(w.value)|, AfterSpec(w.value, old(Types())))
                && Adds(ds, seenType, w.value, ds1, seen1)
    {
      hide Push, ScanAfter, CalmAt, OpenAt, Finite, Outer, SpecAt, FlatSpec, AfterSpec, TypesOf, Naming, Admits, Adds,
           Resolve;
      ds1, seen1, more := ds, seenType, true;
      ghost var on := w.Some? && SpecAt(toks, pos, w.value, Types()) && Admits(ds, seenType, w.value);
      if on {
        SpecKind(w.value);
        NameAdmits(ds, seenType, w.value);
      }
      if IsName(Peek()) && !seenType && IsTypeName(Peek().t.name) {
        ds1 := ParseTypedefName(ds, Peek().t.name);
        seen1 := true;
      } else {
        more := false;
      }
      if on {
        NameAdds(ds, seenType, w.value.x, ds1);
      }
    }

    /** A specifier that begins with a keyword. */
    method ParseWordSpec(ds: DeclSpec, seenType: bool, k: Word, ghost w: Option<Spec>)
      returns (ds1: DeclSpec, seen1: bool, more: bool)
      requires Valid() && Peek() == Key(k)
      modifies this
      ensures Did(old(pos)) && more == (pos > old(pos))
      ensures !more ==> ds1 == ds && seen1 == seenType && scopes == old(scopes)
      ensures StartsType(Key(k)) ==> more
      ensures old(w.Some? && SpecAt(toks, pos, w.value, Types())) && Admits(ds, seenType, w.value) ==>
                && more && Took(old(pos) + |FlatSpec(w.value)|, AfterSpec(w.value, old(Types())))
                && Adds(ds, seenType, w.value, ds1, seen1)
      decreases |toks| - pos, 1, 2
    {
      hide Push, ScanAfter, CalmAt, OpenAt, Finite, Outer, SpecAt, FlatSpec, AfterSpec, TypesOf, Naming, Admits, Adds,
           StartsType, IsStorage, IsQualifier, IsTypeWord, IsAttribute, Resolve;
      ds1, seen1, more := ds, seenType, true;
      if w.Some? && SpecAt(toks, pos, w.value, Types()) && Admits(ds, seenType, w.value) {
        SpecKind(w.value);
        KeyKinds(k);
        if k == Struct || k == Union || k == Enum {
          TagKinds(k);
        }
      }
      if IsAttribute(Key(k)) {
        SkipAttributes();
      } else if IsStorage(k) || IsQualifier(k) || k == Inline {
        ds1 := ParseModifier(ds, k, seenType);
      } else {
        ds1, seen1, more := ParseKeySpec(ds, seenType, k, w);
      }
    }

    method ParseTypedefName(ds: DeclSpec, x: string) returns (ds1: DeclSpec)
      requires Valid() && Check(Plain(Ident(x))) && IsTypeName(x)
      modifies this`pos
      ensures Did(old(pos)) && pos == old(pos) + 1 && ds1 == ds.(base := ds1.base) && ds1.base.Some?
    {
      hide Push, ScanAfter, CalmAt, OpenAt, Finite, Outer, Resolve;
      ds1 := ds.(base := Some(Resolve(scopes, x).value.shape));
      Advance();
    }

    /** A specifier that is or begins a type. */
    method ParseKeySpec(ds: DeclSpec, seenType: bool, k: Word, ghost w: Option<Spec>)
      returns (ds1: DeclSpec, seen1: bool, more: bool)
      requires Valid() && Peek() == Key(k) && !IsAttribute(Key(k)) && !IsStorage(k) && !IsQualifier(k) && k != Inline
      modifies this
      ensures Did(old(pos)) && more == (pos > old(pos))
      ensures !more ==> ds1 == ds && seen1 == seenType && scopes == old(scopes) && errors == old(errors)
      ensures StartsType(Key(k)) ==> more
      ensures old(w.Some? && SpecAt(toks, pos, w.value, Types())) && Admits(ds, seenType, w.value) ==>
                && more && Took(old(pos) + |FlatSpec(w.value)|, AfterSpec(w.value, old(Types())))
                && Adds(ds, seenType, w.value, ds1, seen1)
      decreases |toks| - pos, 1, 1
    {
      hide Push, ScanAfter, CalmAt, OpenAt, Finite, Outer, SpecAt, FlatSpec, AfterSpec, TypesOf, Naming, Admits, Adds,
           IsLone, IsTypeWord, StartsType, IsStorage, IsQualifier, IsAttribute;
      ds1, seen1, more := ds, seenType, true;
      ghost var on := w.Some? && SpecAt(toks, pos, w.value, Types()) && Admits(ds, seenType, w.value);
      if on {
        SpecKind(w.value);
      }
      if k == Struct || k == Union || k == Enum {
        TagKinds(k);
        ds1, seen1 := ParseTagged(ds, seenType, w);
      } else if k == Typeof {
        TagKinds(k);
        ds1, seen1 := ParseTypeof(ds, seenType);
      } else {
        if StartsType(Key(k)) {
          TypeKinds(k);
        }
        ds1, seen1, more := ParseTypeWord(ds, seenType, k);
      }
    }

    /** A storage class, a qualifier or `inline`. */
    method ParseModifier(ds: DeclSpec, k: Word, ghost seen: bool) returns (ds1: DeclSpec)
      requires Valid() && Peek() == Key(k) && (IsStorage(k) || IsQualifier(k) || k == Inline)
      modifies this`pos, this`errors
      ensures Did(old(pos)) && pos == old(pos) + 1
      ensures Admits(ds, seen, SpecWord(k)) ==> errors == old(errors) && Adds(ds, seen, SpecWord(k), ds1, seen)
    {
      hide Push, ScanAfter, CalmAt, OpenAt, Finite, Outer, Admits, Adds;
      ds1 := ds;
      if IsStorage(k) {
        ds1 := ParseStorage(ds, k, seen);
      } else {
        PlainAdds(ds, seen, k);
        Advance();
      }
    }

    /** The keywords that are types, or go into one. */
    method ParseTypeWord(ds: DeclSpec, seenType: bool, k: Word) returns (ds1: DeclSpec, seen1: bool, more: bool)
      requires Valid() && Peek() == Key(k) && !Skips(Key(k))
      modifies this`pos, this`errors
      ensures Did(old(pos)) && more == (pos > old(pos)) && pos == if more then old(pos) + 1 else old(pos)
      ensures !more ==> ds1 == ds && seen1 == seenType && errors == old(errors)
      ensures IsTypeWord(k) || k == KwImaginary || k == BuiltinVaList ==> more
      ensures IsTypeWord(k) && Admits(ds, seenType, SpecWord(k)) ==>
                errors == old(errors) && Adds(ds, seenType, SpecWord(k), ds1, seen1)
    {
      hide Push, ScanAfter, CalmAt, OpenAt, Finite, Outer;
      ds1, seen1, more := ds, seenType, true;
      match k
      case KwVoid => ds1, seen1 := ParseFlag(ds, k, seenType, true);
      case KwBool => ds1, seen1 := ParseFlag(ds, k, seenType, true);
      case KwFloat => ds1, seen1 := ParseFlag(ds, k, seenType, true);
      case KwChar => ds1, seen1 := ParseFlag(ds, k, seenType, false);
      case KwShort => ds1, seen1 := ParseFlag(ds, k, seenType, false);
      case KwInt => ds1, seen1 := ParseFlag(ds, k, seenType, false);
      case KwDouble => ds1, seen1 := ParseFlag(ds, k, seenType, false);
      case KwComplex => ds1, seen1 := ParseFlag(ds, k, seenType, false);
      case KwImaginary => ds1, seen1 := ParseFlag(ds, k, seenType, false);
      case KwSigned => ds1, seen1 := ParseFlag(ds, k, seenType, false);
      case KwUnsigned => ds1, seen1 := ParseFlag(ds, k, seenType, false);
      case KwLong =>
        if ds.longLong {
          Report();
        } else if KwLong in ds.flags {
          ds1 := ds.(longLong := true);
        } else {
          ds1 := ds.(flags := ds.flags + {KwLong});
        }
        Advance();
      case BuiltinVaList =>
        if seenType {
          Report();
        } else {
          ds1, seen1 := ds.(base := Some(Pointer(Object))), true;
        }
        Advance();
      case _ => more := false;
    }

    /** The first token of a specifier, and its whole text unless it is a struct, a union or an enum. */
    lemma SpecKind(s: Spec)
      requires SpecAt(toks, pos, s, Types())
      ensures match s
              case SpecWord(k) =>
                && Peek() == Key(k) && |FlatSpec(s)| == 1 && AfterSpec(s, Types()) == Types()
                && (IsStorage(k) || IsTypeWord(k) || IsQualifier(k) || k == Inline)
              case SpecName(x) =>
                && Peek() == Plain(Ident(x)) && IsTypeName(x) && |FlatSpec(s)| == 1 && AfterSpec(s, Types()) == Types()
              case Record(k, _, _) => Peek() == Key(k) && (k == Struct || k == Union)
              case Enumeration(_, _) => Peek() == Key(Enum)
    {
      hide SpecAt, FlatSpec, AfterSpec, Resolve;
      match s
      case SpecWord(_) => WordHere(toks, pos, s, Types());
      case SpecName(_) => NameHere(toks, pos, s, Types());
      case Record(_, _, _) => RecordHere(toks, pos, s, Types());
      case Enumeration(_, _) => EnumerationHere(toks, pos, s, Types());
    }

    method ParseStorage(ds: DeclSpec, k: Word, ghost seen: bool) returns (ds1: DeclSpec)
      requires Valid() && Check(Key(k)) && IsStorage(k)
      modifies this`pos, this`errors
      ensures Did(old(pos)) && pos == old(pos) + 1
      ensures Admits(ds, seen, SpecWord(k)) ==> errors == old(errors) && Adds(ds, seen, SpecWord(k), ds1, seen)
    {
      hide Push, ScanAfter, CalmAt, OpenAt, Finite, Outer;
      ds1 := ds;
      if ds.storage.Some? && ds.storage != Some(k) {
        Report();
      } else {
        ds1 := ds.(storage := Some(k));
      }
      Advance();
    }

    /** A type keyword. A `lone` one clashes with any type seen before, the others with themselves. */
    method ParseFlag(ds: DeclSpec, k: Word, seenType: bool, lone: bool) returns (ds1: DeclSpec, seen1: bool)
      requires Valid() && Check(Key(k)) && k != Eof && !Skips(Key(k))
      modifies this`pos, this`errors
      ensures Did(old(pos)) && pos == old(pos) + 1
      ensures !(if lone then seenType else k in ds.flags) ==>
                errors == old(errors) && ds1 == ds.(flags := ds.flags + {k}) && seen1 == (seenType || lone)
    {
      hide Push, ScanAfter, CalmAt, OpenAt, Finite, Outer;
      ds1, seen1 := ds, seenType;
      if (if lone then seenType else k in ds.flags) {
        Report();
      } else {
        ds1, seen1 := ds.(flags := ds.flags + {k}), seenType || lone;
      }
      Advance();
    }

    method ParseTagged(ds: DeclSpec, seenType: bool, ghost w: Option<Spec>) returns (ds1: DeclSpec, seen1: bool)
      requires Valid() && (Check(Key(Struct)) || Check(Key(Union)) || Check(Key(Enum)))
      modifies this
      ensures Did(old(pos)) && pos > old(pos)
      ensures old(w.Some? && (w.value.Record? || w.value.Enumeration?) && SpecAt(toks, pos, w.value, Types()))
                && Admits(ds, seenType, w.value) ==>
                && Took(old(pos) + |FlatSpec(w.value)|, AfterSpec(w.value, old(Types())))
                && Adds(ds, seenType, w.value, ds1, seen1)
      decreases |toks| - pos, 1, 0
    {
      hide Push, ScanAfter, CalmAt, OpenAt, Finite, Outer, SpecAt, FlatSpec, AfterSpec, TypesOf, Naming;
      if w.Some? && SpecAt(toks, pos, w.value, Types()) {
        SpecKind(w.value);
      }
      ds1, seen1 := ds, true;
      if seenType {
        Report();
        Advance();
        return;
      }
      if Check(Key(Enum)) {
        ParseEnum(w);
      } else {
        ParseStructUnion(w);
      }
      ds1 := ds.(base := Some(Object));
    }

    method ParseTypeof(ds: DeclSpec, seenType: bool) returns (ds1: DeclSpec, seen1: bool)
      requires Valid() && Check(Key(Typeof))
      modifies this`pos, this`errors
      ensures Did(old(pos)) && pos > old(pos)
    {
      hide Push, ScanAfter, CalmAt, OpenAt, Finite, Outer;
      ds1, seen1 := ds, true;
      if seenType {
        Report();
        Advance();
        return;
      }
      SkipKeyword();
      ds1 := ds.(base := Some(Object));
    }

    // ----- structs, unions and enums -----

    method ParseStructUnion(ghost w: Option<Spec>)
      requires Valid() && !AtEnd() && (Check(Key(Struct)) || Check(Key(Union)))
      modifies this
      ensures Did(old(pos)) && pos > old(pos)
      ensures old(w.Some? && w.value.Record? && SpecAt(toks, pos, w.value, Types())) ==>
                Took(old(pos) + |FlatSpec(w.value)|, AfterSpec(w.value, old(Types())))
      decreases |toks| - pos, 0
    {
      hide Push, ScanAfter, CalmAt, OpenAt, Finite, Outer, SpecAt, FlatSpec, AfterSpec, TypesOf, Naming, MembersAt,
           FlatMembers, AfterMembers;
      ghost var on := w.Some? && w.value.Record? && SpecAt(toks, pos, w.value, Types());
      if on {
        RecordHere(toks, pos, w.value, Types());
      }
      ParseTag();
      if !Check(Plain(LBrace)) { return; }
      ParseMembers(if on then w.value.members else None);
    }

    /** The keyword of a struct, a union or an enum, and its tag if there is one. */
    method ParseTag()
      requires Valid() && (Check(Key(Struct)) || Check(Key(Union)) || Check(Key(Enum)))
      modifies this`pos
      ensures Did(old(pos)) && pos == old(pos) + 1 + if IsName(TokAt(toks, old(pos) + 1)) then 1 else 0
    {
      hide Push, ScanAfter, CalmAt, OpenAt, Finite, Outer;
      Advance();
      if IsName(Peek()) { Advance(); }
    }

    /** The members in their braces, and the attributes after them. */
    method ParseMembers(ghost w: Option<MemberList>)
      requires Valid() && Check(Plain(LBrace))
      modifies this
      ensures Did(old(pos)) && pos > old(pos)
      ensures old(w.Some? && MembersAt(toks, pos + 1, w.value.list, Types())
                  && !IsAttribute(TokAt(toks, pos + 2 + |FlatMembers(w.value.list)|))) ==>
                Took(old(pos) + 2 + |FlatMembers(w.value.list)|, AfterMembers(w.value.list, old(Types())))
      decreases |toks| - pos
    {
      hide Push, ScanAfter, CalmAt, OpenAt, Finite, Outer, TypesOf, Naming, MembersAt, MemberAt, FlatMembers,
           FlatMember, AfterMembers, AfterMember;
      ghost var on := w.Some? && MembersAt(toks, pos + 1, w.value.list, Types())
                      && !IsAttribute(TokAt(toks, pos + 2 + |FlatMembers(w.value.list)|));
      ghost var ms := if on then w.value.list else [];
      ghost var end, after := pos + 1 + |FlatMembers(ms)|, AfterMembers(ms, Types());
      Closes(OpenAt(pos), Plain(LBrace), Plain(RBrace));
      Advance();
      ghost var inside := pos;
      while !Check(Plain(RBrace)) && !AtEnd()
        invariant Did(inside) && pos >= inside
        invariant on ==> MembersGo(ms, end, after) && errors == old(errors)
        decreases |toks| - pos
      {
        if on {
          MembersTurn(ms, end, after);
        }
        ParseMember(if on then Some(ms[0]) else None);
        Expect(Plain(Semicolon));
        ms := if on then ms[1..] else [];
      }
      if on {
        MembersTurn(ms, end, after);
      }
      Expect(Plain(RBrace));
      SkipAttributes();
    }

    ghost predicate MembersGo(ms: seq<MemberDecl>, end: nat, after: iset<string>)
      reads this
    {
      MembersAt(toks, pos, ms, Types()) && pos + |FlatMembers(ms)| == end && AfterMembers(ms, Types()) == after
    }

    lemma MembersTurn(ms: seq<MemberDecl>, end: nat, after: iset<string>)
      requires MembersGo(ms, end, after)
      ensures ms == [] <==> Check(Plain(RBrace))
      ensures ms == [] ==> pos == end && Types() == after
      ensures ms != [] ==>
                var next, ts := pos + |FlatMember(ms[0])|, AfterMember(ms[0], Types());
                && MemberAt(toks, pos, ms[0], Types()) && !AtEnd() && TokAt(toks, next) == Plain(Semicolon)
                && MembersAt(toks, next + 1, ms[1..], ts) && next + 1 + |FlatMembers(ms[1..])| == end
                && AfterMembers(ms[1..], ts) == after
    {
      hide TypesOf, Naming, MembersAt, MemberAt, FlatMembers, FlatMember, AfterMembers, AfterMember;
      if ms == [] {
        MembersDone(toks, pos, ms, Types());
      } else {
        MembersStep(toks, pos, ms, Types());
      }
    }

    /** A specifier and its declarators, up to the semicolon. */
    method ParseMember(ghost w: Option<MemberDecl>)
      requires Valid()
      modifies this
      ensures Did(old(pos))
      ensures old(w.Some? && MemberAt(toks, pos, w.value, Types())) ==>
                Took(old(pos) + |FlatMember(w.value)|, AfterMember(w.value, old(Types())))
      decreases |toks| - pos, 7
    {
      hide Push, ScanAfter, CalmAt, OpenAt, Finite, Outer, TypesOf, Naming, MemberAt, FlatMember, AfterMember,
           SpecsAt, FlatSpecs, AfterSpecs, FieldsAt, FlatFields, BadCombination;
      ghost var on := w.Some? && MemberAt(toks, pos, w.value, Types());
      if on {
        MemberParts(toks, pos, w.value, Types());
      }
      var ds := ParseDeclSpec(if on then Some(w.value.specs) else None);
      var base := ResolveSpec(ds);
      ParseFields(base, if on then Some(w.value.fields) else None);
    }

    method ParseFields(base: Shape, ghost w: Option<seq<FieldDecl>>)
      requires Valid()
      modifies this
      ensures Did(old(pos))
      ensures old(w.Some? && FieldsAt(toks, pos, w.value, Types())) ==> Took(old(pos) + |FlatFields(w.value)|, old(Types()))
      decreases |toks| - pos, 6
    {
      hide Push, ScanAfter, CalmAt, OpenAt, Finite, Outer, TypesOf, Naming, FieldsAt, FlatFields;
      ghost var on := w.Some? && FieldsAt(toks, pos, w.value, Types());
      ghost var fs, ts := if on then w.value else [], Types();
      ghost var end := pos + |FlatFields(fs)|;
      var more := true;
      while more
        invariant Did(old(pos))
        invariant on ==> Took(pos, ts)
        invariant on && more ==> FieldsAt(toks, pos, fs, ts) && pos + |FlatFields(fs)| == end
        invariant on && !more ==> pos == end
        decreases |toks| - pos, more
      {
        if on {
          FieldsTurn(toks, pos, fs, ts);
        }
        if Check(Plain(Semicolon)) { break; }
        ParseField(base, if on then Some(fs[0]) else None);
        more := MatchToken(Plain(Comma));
        fs := if on then fs[1..] else [];
      }
    }

    /** A declarator and the width of a bit-field. */
    method ParseField(base: Shape, ghost w: Option<FieldDecl>)
      requires Valid()
      modifies this
      ensures Did(old(pos))
      ensures old(w.Some? && FieldAt(toks, pos, w.value, Types())) ==> Took(old(pos) + |FlatField(w.value)|, old(Types()))
      decreases |toks| - pos, 5
    {
      hide Push, ScanAfter, CalmAt, OpenAt, Finite, Outer, TypesOf, Naming, FieldAt, FlatField, DeclaratorAt,
           FlatDeclarator, ExprAt, FlatExpr, DeclaratorShape;
      ghost var on := w.Some? && FieldAt(toks, pos, w.value, Types());
      if on {
        FieldParts(toks, pos, w.value, Types());
      }
      var _, _ := ParseDeclarator(base, if on then Some(w.value.d) else None);
      var bits := MatchToken(Plain(Colon));
      if bits { ParseExpr(10, if on then w.value.width else None); }
    }

    method ParseEnum(ghost w: Option<Spec>)
      requires Valid() && Check(Key(Enum))
      modifies this
      ensures Did(old(pos)) && pos > old(pos)
      ensures old(w.Some? && w.value.Enumeration? && SpecAt(toks, pos, w.value, Types())) ==>
                Took(old(pos) + |FlatSpec(w.value)|, AfterSpec(w.value, old(Types())))
      decreases |toks| - pos, 0
    {
      hide Push, ScanAfter, CalmAt, OpenAt, Finite, Outer, SpecAt, FlatSpec, AfterSpec, TypesOf, Naming,
           EnumeratorsAt, FlatEnumerators, AfterEnums;
      ghost var on := w.Some? && w.value.Enumeration? && SpecAt(toks, pos, w.value, Types());
      if on {
        EnumerationHere(toks, pos, w.value, Types());
      }
      ParseTag();
      if !Check(Plain(LBrace)) { return; }
      ParseEnumBody(if on then w.value.enums else None);
    }

    /** The enumerators in their braces, and the attributes after them. */
    method ParseEnumBody(ghost w: Option<EnumeratorList>)
      requires Valid() && Check(Plain(LBrace))
      modifies this
      ensures Did(old(pos)) && pos > old(pos)
      ensures old(w.Some? && EnumeratorsAt(toks, pos + 1, w.value.list, w.value.trailing, Types())
                  && !IsAttribute(TokAt(toks, pos + 2 + |FlatEnumerators(w.value.list, w.value.trailing)|))) ==>
                Took(old(pos) + 2 + |FlatEnumerators(w.value.list, w.value.trailing)|, AfterEnums(w.value.list, old(Types())))
      decreases |toks| - pos
    {
      hide Push, ScanAfter, CalmAt, OpenAt, Finite, Outer, TypesOf, Naming, EnumeratorsAt, FlatEnumerators, AfterEnums;
      if w.Some? && EnumeratorsAt(toks, pos + 1, w.value.list, w.value.trailing, Types()) {
        EnumeratorsClose(toks, pos + 1, w.value.list, w.value.trailing, Types());
      }
      Closes(OpenAt(pos), Plain(LBrace), Plain(RBrace));
      Advance();
      ParseEnumerators(w);
      Expect(Plain(RBrace));
      SkipAttributes();
    }

    /** The list between the braces, with its recovery. */
    method ParseEnumerators(ghost w: Option<EnumeratorList>)
      requires Valid()
      modifies this
      ensures Did(old(pos)) && pos >= old(pos)
      ensures old(w.Some? && EnumeratorsAt(toks, pos, w.value.list, w.value.trailing, Types())) ==>
                Took(old(pos) + |FlatEnumerators(w.value.list, w.value.trailing)|, AfterEnums(w.value.list, old(Types())))
      decreases |toks| - pos, 3
    {
      hide Push, ScanAfter, CalmAt, OpenAt, Finite, Outer, TypesOf, Naming, EnumeratorsAt, FlatEnumerators,
           AfterEnums, EnumeratorAt, FlatEnumerator, EnumeratorsGo;
      ghost var on := w.Some? && EnumeratorsAt(toks, pos, w.value.list, w.value.trailing, Types());
      ghost var es, trailing := if on then w.value.list else [], on && w.value.trailing;
      ghost var end, after := pos + |FlatEnumerators(es, trailing)|, AfterEnums(es, Types());
      assert on ==> EnumeratorsGo(pos, Types(), es, trailing, end, after) by { EnumeratorsBegin(pos, Types(), es, trailing); }
      var more := true;
      while !Check(Plain(RBrace)) && !AtEnd()
        invariant Did(old(pos)) && pos >= old(pos) && more
        invariant on ==> EnumeratorsGo(pos, Types(), es, trailing, end, after) && errors == old(errors)
        decreases |toks| - pos
      {
        if on {
          EnumeratorsTurn(pos, Types(), es, trailing, end, after);
        }
        more := ParseOneEnumerator(if on then Some(es[0]) else None);
        if !more { break; }
        es := if on then es[1..] else [];
      }
      if on && more {
        EnumeratorsTurn(pos, Types(), es, trailing, end, after);
      }
    }

    /** One enumerator and the comma after it; anything else is reported and skipped. */
    method ParseOneEnumerator(ghost w: Option<Enumerator>) returns (more: bool)
      requires Valid() && !AtEnd()
      modifies this
      ensures Did(old(pos)) && pos > old(pos)
      ensures old(w.Some? && EnumeratorAt(toks, pos, w.value, Types()) && IsName(Peek())) ==>
                var next := old(pos) + |FlatEnumerator(w.value)|;
                && more == (TokAt(toks, next) == Plain(Comma))
                && Took(if more then next + 1 else next, Naming(old(Types()), w.value.x, false))
      decreases |toks| - pos, 2, 1
    {
      hide Push, ScanAfter, CalmAt, OpenAt, Finite, Outer, TypesOf, Naming, EnumeratorAt, FlatEnumerator;
      more := true;
      if IsName(Peek()) {
        ParseEnumerator(w);
        more := MatchToken(Plain(Comma));
      } else {
        Report();
        Advance();
      }
    }

    ghost predicate EnumeratorsGo(at: nat, ts: iset<string>, es: seq<Enumerator>, trailing: bool, end: nat, after: iset<string>) {
      && EnumeratorsAt(toks, at, es, trailing, ts) && at + |FlatEnumerators(es, trailing)| == end
      && AfterEnums(es, ts) == after
    }

    lemma EnumeratorsBegin(at: nat, ts: iset<string>, es: seq<Enumerator>, trailing: bool)
      ensures EnumeratorsAt(toks, at, es, trailing, ts) ==>
                EnumeratorsGo(at, ts, es, trailing, at + |FlatEnumerators(es, trailing)|, AfterEnums(es, ts))
    {
      hide EnumeratorsAt, FlatEnumerators, AfterEnums;
    }

    lemma EnumeratorsTurn(at: nat, ts: iset<string>, es: seq<Enumerator>, trailing: bool, end: nat, after: iset<string>)
      requires EnumeratorsGo(at, ts, es, trailing, end, after)
      ensures es == [] <==> TokAt(toks, at) == Plain(RBrace)
      ensures es == [] ==> at == end && ts == after
      ensures es != [] ==>
                var next, ts1 := at + |FlatEnumerator(es[0])|, Naming(ts, es[0].x, false);
                && EnumeratorAt(toks, at, es[0], ts) && IsName(TokAt(toks, at))
                && (if TokAt(toks, next) == Plain(Comma) then EnumeratorsGo(next + 1, ts1, es[1..], trailing, end, after)
                    else next == end && ts1 == after)
    {
      hide Naming, EnumeratorsAt, FlatEnumerators, AfterEnums, EnumeratorAt, FlatEnumerator;
      if es == [] {
        EnumeratorsDone(toks, at, es, trailing, ts);
      } else {
        EnumeratorsStep(toks, at, es, trailing, ts);
        NoMoreNames(es, Naming(ts, es[0].x, false));
      }
    }

    method ParseEnumerator(ghost w: Option<Enumerator>)
      requires Valid() && IsName(Peek())
      modifies this
      ensures Did(old(pos)) && pos > old(pos)
      ensures old(w.Some? && EnumeratorAt(toks, pos, w.value, Types())) ==>
                Took(old(pos) + |FlatEnumerator(w.value)|, Naming(old(Types()), w.value.x, false))
      decreases |toks| - pos, 2, 0
    {
      hide Push, ScanAfter, CalmAt, OpenAt, Finite, Outer, TypesOf, Naming, EnumeratorAt, FlatEnumerator,
           FlatExpr, ExprAt;
      if w.Some? && EnumeratorAt(toks, pos, w.value, Types()) {
        assert Check(Plain(Ident(w.value.x))) by { EnumeratorParts(toks, pos, w.value, Types()); }
      }
      var x := Peek().t.name;
      Advance();
      ParseEnumValue(w);
      Define(x, OtherName);
    }

    /** `= e`, if it is there. */
    method ParseEnumValue(ghost w: Option<Enumerator>)
      requires Valid() && pos > 0
      modifies this
      ensures Did(old(pos))
      ensures old(w.Some? && EnumeratorAt(toks, pos - 1, w.value, Types())) ==>
                Took(old(pos) - 1 + |FlatEnumerator(w.value)|, old(Types()))
      decreases |toks| - pos, 2
    {
      hide Push, ScanAfter, CalmAt, OpenAt, Finite, Outer, TypesOf, Naming, EnumeratorAt, FlatEnumerator, ExprAt,
           FlatExpr;
      ghost var on := w.Some? && EnumeratorAt(toks, pos - 1, w.value, Types());
      if on {
        EnumeratorParts(toks, pos - 1, w.value, Types());
      }
      var m := MatchToken(Plain(Token.Assign));
      if m { ParseExpr(10, if on then w.value.value else None); }
    }

    // ----- declarators -----

    method ParseSuffix(inner: Shape, ghost w: Option<seq<Suffix>>) returns (shape: Shape)
      requires Valid()
      modifies this
      ensures Did(old(pos))
      ensures old(w.Some? && SuffixesAt(toks, pos, w.value, Types())) ==>
                && Took(old(pos) + |FlatSuffixes(w.value)|, old(Types())) && (w.value == [] ==> shape == inner)
                && (|w.value| == 1 && w.value[0].Params? ==> shape == Function(inner, ParamNames(w.value[0].ps)))
      decreases |toks| - pos, 2
    {
      hide Push, ScanAfter, CalmAt, OpenAt, Finite, Outer, TypesOf, Naming, SuffixesAt, FlatSuffixes, SuffixAt,
           FlatSuffix, ParamNames;
      ghost var on := w.Some? && SuffixesAt(toks, pos, w.value, Types());
      ghost var ts, end, i := Types(), 0, 0;
      if on {
        end := pos + |FlatSuffixes(w.value)|;
        assert w.value[0..] == w.value;
      }
      shape := inner;
      while Check(Plain(LBracket)) || Check(Plain(LParen))
        invariant Did(old(pos))
        invariant on ==> 0 <= i <= |w.value| && SuffixesAt(toks, pos, w.value[i..], ts) && Took(pos, ts)
                         && pos + |FlatSuffixes(w.value[i..])| == end && (i == 0 ==> shape == inner)
                         && (i == 1 && w.value[0].Params? ==> shape == Function(inner, ParamNames(w.value[0].ps)))
        decreases |toks| - pos
      {
        if on {
          SuffixesTurn(toks, pos, w.value, i, ts);
        }
        if Check(Plain(LBracket)) {
          ParseBounds(if on then Some(w.value[i]) else None);
          shape := Array(shape);
        } else {
          var params := ParseParamList(if on then Some(w.value[i]) else None);
          shape := Function(shape, params);
        }
        i := if on then i + 1 else 0;
      }
      if on {
        SuffixesTurn(toks, pos, w.value, i, ts);
      }
    }

    method ParseBounds(ghost w: Option<Suffix>)
      requires Valid() && Check(Plain(LBracket))
      modifies this
      ensures Did(old(pos)) && pos > old(pos)
      ensures old(w.Some? && w.value.Bounds? && SuffixAt(toks, pos, w.value, Types())) ==>
                Took(old(pos) + |FlatSuffix(w.value)|, old(Types()))
      decreases |toks| - pos, 0
    {
      hide Push, ScanAfter, CalmAt, OpenAt, Finite, Outer, TypesOf, Naming, SuffixAt, FlatSuffix, ExprAt, FlatExpr;
      ghost var on := w.Some? && w.value.Bounds? && SuffixAt(toks, pos, w.value, Types());
      if on {
        BoundsHere(toks, pos, w.value, Types());
      }
      Closes(OpenAt(pos), Plain(LBracket), Plain(RBracket));
      Advance();
      if Check(Plain(RBracket)) {
        Advance();
      } else {
        ParseExpr(0, if on then w.value.size else None);
        Expect(Plain(RBracket));
      }
    }

    method ParseParamList(ghost w: Option<Suffix>) returns (params: seq<Option<string>>)
      requires Valid() && Check(Plain(LParen))
      modifies this
      ensures Did(old(pos)) && pos > old(pos)
      ensures old(w.Some? && w.value.Params? && SuffixAt(toks, pos, w.value, Types())) ==>
                Took(old(pos) + |FlatSuffix(w.value)|, old(Types())) && params == ParamNames(w.value.ps)
      decreases |toks| - pos, 0
    {
      hide Push, ScanAfter, CalmAt, OpenAt, Finite, Outer, TypesOf, Naming, SuffixAt, FlatSuffix, ParamsAt,
           FlatParams, ParamNames;
      ghost var on := w.Some? && w.value.Params? && SuffixAt(toks, pos, w.value, Types());
      if on {
        ParamsHere(toks, pos, w.value, Types());
        ParamsClose(toks, pos + 1, w.value.ps, w.value.ellipsis, Types());
      }
      Closes(OpenAt(pos), Plain(LParen), Plain(RParen));
      Advance();
      params := ParseParams(if on then w else None);
      Expect(Plain(RParen));
    }

    method ParseParams(ghost w: Option<Suffix>) returns (params: seq<Option<string>>)
      requires Valid()
      modifies this
      ensures Did(old(pos))
      ensures old(w.Some? && w.value.Params? && ParamsAt(toks, pos, w.value.ps, w.value.ellipsis, Types())) ==>
                && Took(old(pos) + |FlatParams(w.value.ps, w.value.ellipsis)|, old(Types()))
                && params == ParamNames(w.value.ps)
      decreases |toks| - pos, 9
    {
      hide Push, ScanAfter, CalmAt, OpenAt, Finite, Outer, TypesOf, Naming, ParamsAt, FlatParams, ParamNames, ParamsGo;
      ghost var on := w.Some? && w.value.Params? && ParamsAt(toks, pos, w.value.ps, w.value.ellipsis, Types());
      if on {
        ParamsFirst(toks, pos, w.value.ps, w.value.ellipsis, Types());
      }
      params := [];
      if !Check(Plain(RParen)) {
        params := ParseParamLoop(if on then w else None);
      } else if on {
        assert w.value.ps[..0] == w.value.ps;
      }
    }

    method ParseParamLoop(ghost w: Option<Suffix>) returns (params: seq<Option<string>>)
      requires Valid()
      modifies this
      ensures Did(old(pos))
      ensures old(w.Some? && w.value.Params? && ParamsAt(toks, pos, w.value.ps, w.value.ellipsis, Types())) && w.value.ps != [] ==>
                && Took(old(pos) + |FlatParams(w.value.ps, w.value.ellipsis)|, old(Types()))
                && params == ParamNames(w.value.ps)
      decreases |toks| - pos, 8
    {
      hide Push, ScanAfter, CalmAt, OpenAt, Finite, Outer, TypesOf, Naming, ParamsAt, FlatParams, ParamAt, FlatParam,
           ParamNames, ParamsGo;
      ghost var on := w.Some? && w.value.Params? && w.value.ps != []
                      && ParamsAt(toks, pos, w.value.ps, w.value.ellipsis, Types());
      ghost var ts, end, i, ps, ellipsis := Types(), 0, 0, [], false;
      if on {
        ps, ellipsis := w.value.ps, w.value.ellipsis;
        end := pos + |FlatParams(ps, ellipsis)|;
        ParamsFirst(toks, pos, ps, ellipsis, ts);
      }
      params := [];
      var more := true;
      while more
        invariant Did(old(pos))
        invariant on ==> 0 <= i <= |ps| && params == ParamNames(ps[..i]) && Took(pos, ts)
        invariant on && more ==> ParamsGo(toks, pos, ps, ellipsis, i, end, ts)
        invariant on && !more ==> i == |ps| && pos == end
        decreases |toks| - pos, more
      {
        if on {
          ParamsTurn(toks, pos, ps, ellipsis, i, end, ts);
        }
        if Check(Key(Ellipsis)) {
          Advance();
          break;
        }
        var x;
        x, more := ParseOneParam(if on && i < |ps| then Some(ps[i]) else None);
        params := params + [x];
        i := if on then i + 1 else 0;
      }
      if on {
        assert ps[..|ps|] == ps;
      }
    }

    /** One parameter and the comma after it. */
    method ParseOneParam(ghost w: Option<Param>) returns (x: Option<string>, more: bool)
      requires Valid()
      modifies this
      ensures Did(old(pos)) && (more ==> pos > old(pos))
      ensures old(w.Some? && ParamAt(toks, pos, w.value, Types())) ==>
                var next := old(pos) + |FlatParam(w.value)|;
                && more == (TokAt(toks, next) == Plain(Comma)) && x == Declared(w.value.d)
                && Took(if more then next + 1 else next, old(Types()))
      decreases |toks| - pos, 7, 1
    {
      hide Push, ScanAfter, CalmAt, OpenAt, Finite, Outer, TypesOf, Naming, ParamAt, FlatParam, Declared;
      x := ParseParam(w);
      more := MatchToken(Plain(Comma));
    }

    method ParseParam(ghost w: Option<Param>) returns (x: Option<string>)
      requires Valid()
      modifies this
      ensures Did(old(pos))
      ensures old(w.Some? && ParamAt(toks, pos, w.value, Types())) ==>
                Took(old(pos) + |FlatParam(w.value)|, old(Types())) && x == Declared(w.value.d)
      decreases |toks| - pos, 7, 0
    {
      hide Push, ScanAfter, CalmAt, OpenAt, Finite, Outer, TypesOf, Naming, ParamAt, FlatParam, SpecsAt, FlatSpecs,
           AfterSpecs, DeclaratorAt, FlatDeclarator, BadCombination, Declared;
      ghost var on := w.Some? && ParamAt(toks, pos, w.value, Types());
      if on {
        ParamParts(toks, pos, w.value, Types());
      }
      var ds := ParseDeclSpec(if on then Some(w.value.specs) else None);
      var base := ResolveSpec(ds);
      var name, _ := ParseDeclarator(base, if on then Some(w.value.d) else None);
      x := name;
    }

    /** Pointer stars with their qualifiers; at most 16 are taken. */
    method ParseStars(ghost w: Option<seq<seq<Word>>>) returns (n: nat)
      requires Valid()
      modifies this`pos
      ensures Did(old(pos)) && n <= 16
      ensures w.Some? && |w.value| <= 16 && StarsAt(toks, old(pos), w.value) ==>
                pos == old(pos) + |FlatStars(w.value)| && n == |w.value|
    {
      hide Push, ScanAfter, CalmAt, OpenAt, Finite, Outer, StarsAt, FlatStars, WordsAt, FlatWords;
      ghost var on := w.Some? && |w.value| <= 16 && StarsAt(toks, pos, w.value);
      ghost var end := 0;
      if on {
        end := pos + |FlatStars(w.value)|;
        assert w.value[0..] == w.value;
      }
      n := 0;
      while (Check(Plain(Star)) || Check(Plain(Caret))) && n < 16
        invariant Did(old(pos)) && n <= 16
        invariant on ==> n <= |w.value| && StarsAt(toks, pos, w.value[n..]) && pos + |FlatStars(w.value[n..])| == end
        decreases |toks| - pos
      {
        if on {
          StarsTurn(toks, pos, w.value, n);
        }
        Advance();
        ParseQualifiers(if on then Some(w.value[n]) else None);
        n := n + 1;
      }
      if on {
        StarsTurn(toks, pos, w.value, n);
      }
    }

    /** The qualifiers and attributes after a star. */
    method ParseQualifiers(ghost w: Option<seq<Word>>)
      requires Valid()
      modifies this`pos
      ensures Did(old(pos))
      ensures w.Some? && WordsAt(toks, old(pos), w.value) ==> pos == old(pos) + |FlatWords(w.value)|
    {
      hide Push, ScanAfter, CalmAt, OpenAt, Finite, Outer, WordsAt, FlatWords;
      ghost var on := w.Some? && WordsAt(toks, pos, w.value);
      ghost var ks := if on then w.value else [];
      ghost var end := pos + |FlatWords(ks)|;
      while Check(Key(Const)) || Check(Key(Volatile)) || Check(Key(Restrict)) || Check(Key(Attribute))
            || Check(Key(Asm)) || Check(Key(Nonnull)) || Check(Key(Nullable))
        invariant Did(old(pos))
        invariant on ==> WordsAt(toks, pos, ks) && pos + |FlatWords(ks)| == end
        decreases |toks| - pos
      {
        if on {
          WordsStep(toks, pos, ks);
        }
        ParseQualifier();
        ks := if on then ks[1..] else [];
      }
      if on {
        WordsStep(toks, pos, ks);
      }
    }

    method ParseQualifier()
      requires Valid() && !AtEnd() && (IsAttribute(Peek()) || (Peek().Key? && IsQualifier(Peek().k)))
      modifies this`pos
      ensures Did(old(pos)) && pos > old(pos)
      ensures old(Peek().Key? && IsQualifier(Peek().k)) ==> pos == old(pos) + 1
    {
      hide Push, ScanAfter, CalmAt, OpenAt, Finite, Outer;
      if IsAttribute(Peek()) {
        SkipAttributes();
      } else {
        Advance();
      }
    }

    method ParseDeclarator(base: Shape, ghost w: Option<Declarator>) returns (name: Option<string>, shape: Shape)
      requires Valid()
      modifies this
      ensures Did(old(pos))
      ensures old(w.Some? && DeclaratorAt(toks, pos, w.value, Types())) ==>
                && Took(old(pos) + |FlatDeclarator(w.value)|, old(Types())) && name == Declared(w.value)
                && DeclaratorShape(w.value, base, shape)
      decreases |toks| - pos, 4, 1
    {
      hide Push, ScanAfter, CalmAt, OpenAt, Finite, Outer, TypesOf, Naming, DeclaratorAt, FlatDeclarator, StarsAt,
           FlatStars, FlatSuffixes, DeclaratorShape, CoreAt, CoreSize, Declared, IsAttribute, Pointers;
      ghost var on := w.Some? && DeclaratorAt(toks, pos, w.value, Types());
      ghost var ts := Types();
      if on {
        DeclaratorParts(toks, pos, w.value, ts);
      }
      SkipAttributes();
      var n := ParseStars(if on then Some(w.value.stars) else None);
      SkipAttributes();
      if on {
        CoreClose(toks, pos, w.value, ts);
      }
      name, shape := ParseCore(n, base, w);
      SkipAttributes();
    }

    /** A name or a declarator in parentheses, after `n` stars, and its suffixes. */
    method ParseCore(n: nat, base: Shape, ghost w: Option<Declarator>) returns (name: Option<string>, shape: Shape)
      requires Valid()
      modifies this
      ensures Did(old(pos))
      ensures old(w.Some? && n == |w.value.stars| && CoreAt(toks, pos, w.value, Types())) ==>
                && Took(old(pos) + CoreSize(w.value.core) + |FlatSuffixes(w.value.suffixes)|, old(Types()))
                && name == Declared(w.value) && DeclaratorShape(w.value, base, shape)
      decreases |toks| - pos, 4, 0
    {
      hide Push, ScanAfter, CalmAt, OpenAt, Finite, Outer, TypesOf, Naming, FlatSuffixes, SuffixesAt, DeclaratorShape,
           GroupShape, CoreAt, CoreSize, Declared, ParamNames;
      ghost var on := w.Some? && n == |w.value.stars| && CoreAt(toks, pos, w.value, Types());
      if on {
        CoreKnown(toks, pos, w.value, Types());
      }
      name, shape := None, Pointers(n, base);
      if Check(Plain(LParen)) {
        name, shape := ParseGrouped(shape, w);
        if on {
          GroupDeclares(w.value, base, n, shape);
        }
      } else {
        if IsName(Peek()) {
          name := Some(Peek().t.name);
          Advance();
        }
        shape := ParseSuffix(shape, if on then Some(w.value.suffixes) else None);
        if on {
          NameDeclares(w.value, base, n, shape);
        }
      }
    }

    /** A declarator in parentheses, and its suffixes. */
    method ParseGrouped(base: Shape, ghost w: Option<Declarator>) returns (name: Option<string>, shape: Shape)
      requires Valid() && Check(Plain(LParen))
      modifies this
      ensures Did(old(pos)) && pos > old(pos)
      ensures old(w.Some? && w.value.core.Grouped? && CoreAt(toks, pos, w.value, Types())) ==>
                && Took(old(pos) + CoreSize(w.value.core) + |FlatSuffixes(w.value.suffixes)|, old(Types()))
                && name == Declared(w.value) && DeclaratorEnd(Peek()) && GroupShape(w.value, base, shape)
      decreases |toks| - pos, 3
    {
      hide Push, ScanAfter, CalmAt, OpenAt, Finite, Outer, TypesOf, Naming, DeclaratorAt, FlatDeclarator, SuffixesAt,
           FlatSuffixes, DeclaratorShape, CoreAt, Patch, ParamNames, GroupShape;
      ghost var on := w.Some? && w.value.core.Grouped? && CoreAt(toks, pos, w.value, Types());
      ghost var ts := Types();
      if on {
        GroupKnown(toks, pos, w.value, ts);
      }
      Closes(OpenAt(pos), Plain(LParen), Plain(RParen));
      Advance();
      var inner;
      name, inner := ParseDeclarator(Hole, if on then Some(w.value.core.d) else None);
      Expect(Plain(RParen));
      var suffix := ParseSuffix(base, if on then Some(w.value.suffixes) else None);
      shape := Patch(inner, suffix);
      if on {
        GroupShapes(w.value, base, inner, suffix);
      }
    }

    // ----- initializers -----

    method ParseInitList(ghost w: Option<Braces>)
      requires Valid()
      modifies this
      ensures Did(old(pos))
      ensures old(w.Some? && BracesAt(toks, pos, w.value, Types())) ==> Took(old(pos) + |FlatBraces(w.value)|, old(Types()))
      decreases |toks| - pos, 2
    {
      hide Push, ScanAfter, CalmAt, OpenAt, Finite, Outer, TypesOf, Naming, BracesAt, FlatBraces, ItemsAt, FlatItems;
      if w.Some? && BracesAt(toks, pos, w.value, Types()) {
        BracesHere(toks, pos, w.value, Types());
        ItemsClose(toks, pos + 1, w.value.items, w.value.trailing, Types());
      }
      Closes(OpenAt(pos), Plain(LBrace), Plain(RBrace));
      Expect(Plain(LBrace));
      ParseItems(w);
      Expect(Plain(RBrace));
    }

    /** The items between the braces. */
    method ParseItems(ghost w: Option<Braces>)
      requires Valid()
      modifies this
      ensures Did(old(pos))
      ensures old(w.Some? && ItemsAt(toks, pos, w.value.items, w.value.trailing, Types())) ==>
                Took(old(pos) + |FlatItems(w.value.items, w.value.trailing)|, old(Types()))
      decreases |toks| - pos, if AtEnd() then 0 else 6
    {
      hide Push, ScanAfter, CalmAt, OpenAt, Finite, Outer, TypesOf, Naming, ItemsAt, FlatItems, ItemAt, FlatItem;
      ghost var on := w.Some? && ItemsAt(toks, pos, w.value.items, w.value.trailing, Types());
      ghost var ts, xs, trailing := Types(), if on then w.value.items else [], on && w.value.trailing;
      ghost var end := pos + |FlatItems(xs, trailing)|;
      var more := true;
      while !Check(Plain(RBrace)) && !AtEnd()
        invariant Did(old(pos)) && more
        invariant on ==> ItemsAt(toks, pos, xs, trailing, ts) && pos + |FlatItems(xs, trailing)| == end && Took(pos, ts)
        decreases |toks| - pos
      {
        if on {
          ItemsTurn(toks, pos, xs, trailing, ts);
        }
        more := ParseOneItem(if on then Some(xs[0]) else None);
        if !more { break; }
        xs := if on then xs[1..] else [];
      }
      if on && more {
        ItemsTurn(toks, pos, xs, trailing, ts);
      }
    }

    /** One item and the comma after it. */
    method ParseOneItem(ghost w: Option<Item>) returns (more: bool)
      requires Valid()
      modifies this
      ensures Did(old(pos)) && (more ==> pos > old(pos))
      ensures old(w.Some? && ItemAt(toks, pos, w.value, Types())) ==>
                var next := old(pos) + |FlatItem(w.value)|;
                more == (TokAt(toks, next) == Plain(Comma)) && Took(if more then next + 1 else next, old(Types()))
      decreases |toks| - pos, 5
    {
      hide Push, ScanAfter, CalmAt, OpenAt, Finite, Outer, TypesOf, ItemAt, FlatItem;
      ParseItem(w);
      more := MatchToken(Plain(Comma));
    }

    method ParseItem(ghost w: Option<Item>)
      requires Valid()
      modifies this
      ensures Did(old(pos))
      ensures old(w.Some? && ItemAt(toks, pos, w.value, Types())) ==> Took(old(pos) + |FlatItem(w.value)|, old(Types()))
      decreases |toks| - pos, 4
    {
      hide Push, ScanAfter, CalmAt, OpenAt, Finite, Outer, TypesOf, ItemAt, FlatItem, InitAt, FlatInit, DesignatorSize;
      ghost var on := w.Some? && ItemAt(toks, pos, w.value, Types());
      if on {
        ItemInit(toks, pos, w.value, Types());
      }
      ParseDesignator(w);
      ParseInitializer(if on then Some(w.value.init) else None);
    }

    /** `.x =` or `[e] =`, if it is there. */
    method ParseDesignator(ghost w: Option<Item>)
      requires Valid()
      modifies this
      ensures Did(old(pos))
      ensures old(w.Some? && ItemAt(toks, pos, w.value, Types())) ==> Took(old(pos) + DesignatorSize(w.value), old(Types()))
      decreases |toks| - pos, 3
    {
      hide Push, ScanAfter, CalmAt, OpenAt, Finite, Outer, TypesOf, ItemAt, FlatItem, InitAt, FlatInit, ExprAt,
           FlatExpr;
      ghost var on := w.Some? && ItemAt(toks, pos, w.value, Types());
      if on {
        ItemParts(toks, pos, w.value, Types());
      }
      if Check(Plain(Dot)) {
        Advance();
        var _ := ExpectName();
        Expect(Plain(Token.Assign));
      } else if Check(Plain(LBracket)) {
        Closes(OpenAt(pos), Plain(LBracket), Plain(RBracket));
        Advance();
        ParseExpr(0, if on then Some(w.value.at.value.i) else None);
        Expect(Plain(RBracket));
        Expect(Plain(Token.Assign));
      }
    }

    method ParseInitializer(ghost w: Option<Init>)
      requires Valid()
      modifies this
      ensures Did(old(pos))
      ensures old(w.Some? && InitAt(toks, pos, w.value, Types())) ==> Took(old(pos) + |FlatInit(w.value)|, old(Types()))
      decreases |toks| - pos, 3
    {
      hide Push, ScanAfter, CalmAt, OpenAt, Finite, Outer, TypesOf, Naming, InitAt, FlatInit, ExprAt, FlatExpr,
           BracesAt, FlatBraces;
      ghost var on := w.Some? && InitAt(toks, pos, w.value, Types());
      if on {
        InitHere(toks, pos, w.value, Types());
      }
      if Check(Plain(LBrace)) {
        ParseInitList(if on then Some(w.value.b) else None);
      } else {
        ParseExpr(20, if on then Some(w.value.e) else None);
      }
    }

    // ----- statements -----

    /** The text of a statement is next, in the loops and switches around it. */
    ghost predicate Here(w: Option<Stmt>)
      reads this
    {
      w.Some? && StmtAt(toks, pos, w.value, Types(), loopDepth > 0, switchDepth > 0)
    }

    /** How each statement begins. */
    lemma StmtKind(s: Stmt)
      requires Here(Some(s))
      ensures IsTypeStart() <==> s.DeclStmt?
      ensures match s
              case EmptyStmt => Peek() == Plain(Semicolon)
              case ExprStmt(_) =>
                && Peek() != Plain(Semicolon) && Peek() != Plain(LBrace)
                && (Peek().Key? ==> Peek().k == Sizeof || Peek().k == Alignof)
              case Block(_) => Peek() == Plain(LBrace)
              case DeclStmt(_) => Peek() != Key(Pragma)
              case IfStmt(_, _, _) => Peek() == Key(If)
              case WhileStmt(_, _) => Peek() == Key(While)
              case DoStmt(_, _) => Peek() == Key(Do)
              case ForStmt(_, _, _, _) => Peek() == Key(For)
              case SwitchStmt(_, _) => Peek() == Key(Switch)
              case CaseStmt(_, _) => Peek() == Key(Case)
              case DefaultStmt(_) => Peek() == Key(Default)
              case LabelStmt(_, _) => IsName(Peek())
              case GotoStmt(_) => Peek() == Key(Goto)
              case ReturnStmt(_) => Peek() == Key(Return)
              case BreakStmt => Peek() == Key(Break)
              case ContinueStmt => Peek() == Key(Continue)
    {
      hide StmtAt, FlatStmt, IsTypeStart, StartsDeclaration, StartsExpr, TypesOf;
      var l, w := loopDepth > 0, switchDepth > 0;
      Starts();
      StartsNeither(Peek(), Types());
      match s
      case ExprStmt(_) => ExprStmtHere(toks, pos, s, Types(), l, w); ExprKeys(Peek(), Types());
      case Block(_) => BlockHere(toks, pos, s, Types(), l, w); NoTypeStart();
      case DeclStmt(_) => DeclStmtHere(toks, pos, s, Types(), l, w);
      case IfStmt(_, _, _) => IfHere(toks, pos, s, Types(), l, w); NoTypeStart();
      case WhileStmt(_, _) => HeadedHere(toks, pos, s, Types(), l, w); NoTypeStart();
      case DoStmt(_, _) => DoHere(toks, pos, s, Types(), l, w); NoTypeStart();
      case ForStmt(_, _, _, _) => ForHere(toks, pos, s, Types(), l, w); NoTypeStart();
      case SwitchStmt(_, _) => HeadedHere(toks, pos, s, Types(), l, w); NoTypeStart();
      case CaseStmt(_, _) => CaseHere(toks, pos, s, Types(), l, w); NoTypeStart();
      case DefaultStmt(_) => DefaultHere(toks, pos, s, Types(), l, w); NoTypeStart();
      case LabelStmt(_, _) => LabelHere(toks, pos, s, Types(), l, w); NoTypeStart();
      case ReturnStmt(_) => ReturnHere(toks, pos, s, Types(), l, w); NoTypeStart();
      case _ => SimpleHere(toks, pos, s, Types(), l, w); NoTypeStart();
    }

    lemma NoTypeStart()
      ensures Peek().Plain? && (IsName(Peek()) ==> Peek().t.name !in Types()) ==> !IsTypeStart()
      ensures Peek().Key? && Peek().k in {If, While, Do, For, Switch, Case, Default, Goto, Return, Break, Continue} ==>
                !IsTypeStart()
    {
      hide Resolve;
    }

    method ParseStatement(ghost w: Option<Stmt>)
      requires Valid()
      modifies this
      ensures Did(old(pos)) && (!old(AtEnd()) ==> pos > old(pos))
      ensures old(Here(w)) ==> Took(old(pos) + |FlatStmt(w.value)|, AfterStmt(w.value, old(Types())))
      decreases |toks| - pos, 13
    {
      hide Push, ScanAfter, CalmAt, OpenAt, Finite, Outer, StmtAt, FlatStmt, IsTypeStart, TypesOf, Naming,
           DeclarationAt, FlatDeclaration, ExprAt, FlatExpr, AfterDeclaration, StartsExpr, StartsDeclaration;
      ghost var on := Here(w);
      if on {
        StmtKind(w.value);
      }
      var t := Peek();
      if t == Key(Pragma) {
        SkipPragma();
      } else if IsTypeStart() {
        if on {
          DeclStmtHere(toks, pos, w.value, Types(), loopDepth > 0, switchDepth > 0);
        }
        ParseDeclaration(if on then Some(w.value.d) else None);
      } else if t == Plain(LBrace) {
        ParseCompound(w);
      } else if t == Plain(Semicolon) {
        if on {
          SimpleHere(toks, pos, w.value, Types(), loopDepth > 0, switchDepth > 0);
        }
        Advance();
      } else if IsName(t) {
        ParseLabelOrExpr(w);
      } else if t.Plain? {
        ParseExprStatement(w);
      } else {
        ParseKeyword(t.k, w);
      }
    }

    method ParseExprStatement(ghost w: Option<Stmt>)
      requires Valid() && !AtEnd()
      modifies this
      ensures Did(old(pos)) && pos > old(pos)
      ensures old(Here(w)) && w.value.ExprStmt? ==> Took(old(pos) + |FlatStmt(w.value)|, old(Types()))
      decreases |toks| - pos, 10
    {
      hide Push, ScanAfter, CalmAt, OpenAt, Finite, Outer, StmtAt, FlatStmt, TypesOf, Naming, ExprAt, FlatExpr,
           StartsExpr;
      ghost var on := Here(w) && w.value.ExprStmt?;
      if on {
        ExprStmtHere(toks, pos, w.value, Types(), loopDepth > 0, switchDepth > 0);
      }
      ParseExpr(0, if on then Some(w.value.e) else None);
      Expect(Plain(Semicolon));
    }

    method ParseKeyword(k: Word, ghost w: Option<Stmt>)
      requires Valid() && Peek() == Key(k) && (Here(w) ==> !IsTypeStart())
      modifies this
      ensures Did(old(pos)) && (!old(AtEnd()) ==> pos > old(pos))
      ensures old(Here(w)) ==> Took(old(pos) + |FlatStmt(w.value)|, old(Types()))
      decreases |toks| - pos, 12, 1
    {
      hide Push, ScanAfter, CalmAt, OpenAt, Finite, Outer, StmtAt, FlatStmt, IsTypeStart, TypesOf, Naming, AfterStmt;
      if Here(w) {
        StmtKind(w.value);
      }
      if k == If {
        ParseIf(w);
      } else if k == Switch {
        ParseSwitch(w);
      } else if k == Case {
        ParseCase(w);
      } else if k == Default {
        ParseDefault(w);
      } else {
        ParseLoop(k, w);
      }
    }

    method ParseLoop(k: Word, ghost w: Option<Stmt>)
      requires Valid() && Peek() == Key(k)
      modifies this
      ensures Did(old(pos)) && (!old(AtEnd()) ==> pos > old(pos))
      ensures old(Here(w) && (w.value.WhileStmt? || w.value.DoStmt? || w.value.ForStmt? || IsSimple(w.value))) ==>
                Took(old(pos) + |FlatStmt(w.value)|, old(Types()))
      decreases |toks| - pos, 12, 0
    {
      hide Push, ScanAfter, CalmAt, OpenAt, Finite, Outer, StmtAt, FlatStmt, IsTypeStart, TypesOf, Naming, AfterStmt;
      if Here(w) {
        StmtKind(w.value);
      }
      if k == While {
        ParseWhile(w);
      } else if k == Do {
        ParseDo(w);
      } else if k == For {
        ParseFor(w);
      } else {
        ParseSimple(k, w);
      }
    }

    /** The statements that end at their semicolon. */
    method ParseSimple(k: Word, ghost w: Option<Stmt>)
      requires Valid() && Peek() == Key(k)
      modifies this
      ensures Did(old(pos)) && (!old(AtEnd()) ==> pos > old(pos))
      ensures old(Here(w) && IsSimple(w.value)) ==> Took(old(pos) + |FlatStmt(w.value)|, old(Types()))
      decreases |toks| - pos, 11, 1
    {
      hide Push, ScanAfter, CalmAt, OpenAt, Finite, Outer, StmtAt, FlatStmt, IsTypeStart, TypesOf, Naming, ExprAt,
           FlatExpr, IsSimple;
      if Here(w) && IsSimple(w.value) {
        SimpleParts(w.value);
      }
      ParseBeforeSemicolon(k, w);
      Expect(Plain(Semicolon));
    }

    method ParseBeforeSemicolon(k: Word, ghost w: Option<Stmt>)
      requires Valid() && Peek() == Key(k)
      modifies this
      ensures Did(old(pos)) && (!old(AtEnd()) ==> pos > old(pos))
      ensures old(Here(w) && IsSimple(w.value)) ==> Took(old(pos) + |FlatStmt(w.value)| - 1, old(Types()))
      decreases |toks| - pos, 11, 0
    {
      hide Push, ScanAfter, CalmAt, OpenAt, Finite, Outer, StmtAt, FlatStmt, IsTypeStart, TypesOf, Naming, ExprAt,
           FlatExpr;
      ghost var e := SimpleExpr(w);
      if k == Return {
        ParseReturn(w);
      } else if k == Break || k == Continue {
        ParseJump(k);
      } else if k == Goto {
        ParseGoto();
      } else {
        ParseExpr(0, e);
      }
    }

    method ParseGoto()
      requires Valid() && Check(Key(Goto))
      modifies this`pos, this`errors
      ensures Did(old(pos)) && pos > old(pos)
      ensures old(IsName(TokAt(toks, pos + 1))) ==> pos == old(pos) + 2 && errors == old(errors)
    {
      hide Push, ScanAfter, CalmAt, OpenAt, Finite, Outer;
      Advance();
      var _ := ExpectName();
    }

    /** `break` outside of loops and switches, and `continue` outside of loops, are reported. */
    method ParseJump(k: Word)
      requires Valid() && Check(Key(k)) && (k == Break || k == Continue)
      modifies this`pos, this`errors
      ensures Did(old(pos)) && pos == old(pos) + 1
      ensures errors == old(errors) + if loopDepth > 0 || (k == Break && switchDepth > 0) then 0 else 1
    {
      hide Push, ScanAfter, CalmAt, OpenAt, Finite, Outer;
      Advance();
      if k == Break {
        if loopDepth == 0 && switchDepth == 0 { Report(); }
      } else {
        if loopDepth == 0 { Report(); }
      }
    }

    method ParseReturn(ghost w: Option<Stmt>)
      requires Valid() && Check(Key(Return))
      modifies this
      ensures Did(old(pos)) && pos > old(pos)
      ensures old(Here(w) && w.value.ReturnStmt?) ==> Took(old(pos) + |FlatStmt(w.value)| - 1, old(Types()))
      decreases |toks| - pos, 10
    {
      hide Push, ScanAfter, CalmAt, OpenAt, Finite, Outer, TypesOf, Naming, ExprAt, FlatExpr, StmtAt, FlatStmt;
      ghost var on := Here(w) && w.value.ReturnStmt?;
      if on {
        SimpleParts(w.value);
      }
      Advance();
      if !Check(Plain(Semicolon)) { ParseExpr(0, if on then w.value.value else None); }
    }

    lemma SimpleParts(s: Stmt)
      requires Here(Some(s)) && IsSimple(s)
      ensures |FlatStmt(s)| >= 1 && TokAt(toks, pos + |FlatStmt(s)| - 1) == Plain(Semicolon)
      ensures s.ExprStmt? ==>
                && ExprAt(toks, pos, s.e, Types(), 0) && |FlatStmt(s)| == |FlatExpr(s.e)| + 1
                && (Peek().Key? ==> Peek().k == Sizeof || Peek().k == Alignof)
      ensures s.ReturnStmt? ==>
                && Check(Key(Return)) && (s.value.None? <==> TokAt(toks, pos + 1) == Plain(Semicolon))
                && (s.value.None? ==> |FlatStmt(s)| == 2)
                && (s.value.Some? ==>
                      ExprAt(toks, pos + 1, s.value.value, Types(), 0) && |FlatStmt(s)| == 2 + |FlatExpr(s.value.value)|)
      ensures s.BreakStmt? ==> Check(Key(Break)) && |FlatStmt(s)| == 2 && (loopDepth > 0 || switchDepth > 0)
      ensures s.ContinueStmt? ==> Check(Key(Continue)) && |FlatStmt(s)| == 2 && loopDepth > 0
      ensures s.GotoStmt? ==> Check(Key(Goto)) && |FlatStmt(s)| == 3 && IsName(TokAt(toks, pos + 1))
    {
      hide StmtAt, FlatStmt, TypesOf, ExprAt, FlatExpr, OptionAt, FlatOption, StartsExpr;
      var l, sw := loopDepth > 0, switchDepth > 0;
      if s.ExprStmt? {
        ExprStmtHere(toks, pos, s, Types(), l, sw);
        ExprKeys(Peek(), Types());
      } else if s.ReturnStmt? {
        ReturnHere(toks, pos, s, Types(), l, sw);
        OptionParts(toks, pos + 1, s.value, Semicolon, Types());
        OptionEnd(toks, pos + 1, s.value, Semicolon, Types());
      } else if s.BreakStmt? || s.ContinueStmt? || s.GotoStmt? {
        SimpleHere(toks, pos, s, Types(), l, sw);
      }
    }

    /** What is left of a simple statement but a `return`. */
    lemma SimpleExpr(w: Option<Stmt>) returns (e: Option<Expr>)
      ensures Here(w) && IsSimple(w.value) ==>
                match w.value
                case ReturnStmt(_) => Check(Key(Return))
                case BreakStmt => Check(Key(Break)) && |FlatStmt(w.value)| == 2 && (loopDepth > 0 || switchDepth > 0)
                case ContinueStmt => Check(Key(Continue)) && |FlatStmt(w.value)| == 2 && loopDepth > 0
                case GotoStmt(_) => Check(Key(Goto)) && |FlatStmt(w.value)| == 3 && IsName(TokAt(toks, pos + 1))
                case _ =>
                  && e.Some? && ExprAt(toks, pos, e.value, Types(), 0) && |FlatStmt(w.value)| == |FlatExpr(e.value)| + 1
                  && (Peek().Key? ==> Peek().k == Sizeof || Peek().k == Alignof)
    {
      hide StmtAt, FlatStmt, TypesOf, ExprAt, FlatExpr;
      e := None;
      if Here(w) && IsSimple(w.value) {
        SimpleParts(w.value);
        e := if w.value.ExprStmt? then Some(w.value.e) else None;
      }
    }

    method ParseDeclaration(ghost w: Option<Declaration>)
      requires Valid() && IsTypeStart()
      modifies this
      ensures Did(old(pos)) && pos > old(pos)
      ensures old(w.Some? && DeclarationAt(toks, pos, w.value, Types())) ==>
                Took(old(pos) + |FlatDeclaration(w.value)|, AfterDeclaration(w.value, old(Types())))
      decreases |toks| - pos, 11
    {
      hide Push, ScanAfter, CalmAt, OpenAt, Finite, Outer, TypesOf, Naming, DeclarationAt, FlatDeclaration,
           AfterDeclaration, SpecsAt, FlatSpecs, AfterSpecs, InitsAt, FlatInits, AfterInits, BadCombination,
           IsTypedef, StartsDeclaration, IsTypeStart, FunctionAt;
      ghost var on := w.Some? && DeclarationAt(toks, pos, w.value, Types());
      if on {
        DeclarationParts(toks, pos, w.value, Types());
      }
      var ds := ParseDeclSpec(if on then Some(w.value.specs) else None);
      ParseDeclList(ds, false, if on then Some(w.value.ds) else None, None);
    }

    /** `( expression )` */
    method ParseCondition(ghost w: Option<Expr>)
      requires Valid()
      modifies this
      ensures Did(old(pos))
      ensures old(w.Some? && ConditionAt(toks, pos, w.value, Types())) ==>
                Took(old(pos) + |FlatCondition(w.value)|, old(Types()))
      decreases |toks| - pos, 9
    {
      hide Push, ScanAfter, CalmAt, OpenAt, Finite, Outer, TypesOf, Naming, ConditionAt, FlatCondition, ExprAt,
           FlatExpr;
      ghost var on := w.Some? && ConditionAt(toks, pos, w.value, Types());
      if on {
        ConditionParts(toks, pos, w.value, Types());
      }
      Closes(OpenAt(pos), Plain(LParen), Plain(RParen));
      Expect(Plain(LParen));
      ParseExpr(0, if on then Some(w.value) else None);
      Expect(Plain(RParen));
    }

    /** `if`, `while` or `switch`, and its condition. */
    method ParseHead(ghost w: Option<Expr>)
      requires Valid() && (Check(Key(If)) || Check(Key(While)) || Check(Key(Switch)))
      modifies this
      ensures Did(old(pos)) && pos > old(pos)
      ensures old(w.Some? && ConditionAt(toks, pos + 1, w.value, Types())) ==>
                Took(old(pos) + 1 + |FlatCondition(w.value)|, old(Types()))
      decreases |toks| - pos, 10
    {
      hide Push, ScanAfter, CalmAt, OpenAt, Finite, Outer, TypesOf, Naming, ConditionAt, FlatCondition;
      Advance();
      ParseCondition(w);
    }

    method ParseIf(ghost w: Option<Stmt>)
      requires Valid() && Check(Key(If))
      modifies this
      ensures Did(old(pos)) && pos > old(pos)
      ensures old(Here(w) && w.value.IfStmt?) ==> Took(old(pos) + |FlatStmt(w.value)|, old(Types()))
      decreases |toks| - pos, 11
    {
      hide Push, ScanAfter, CalmAt, OpenAt, Finite, Outer, TypesOf, Naming, StmtAt, FlatStmt, ConditionAt,
           FlatCondition;
      ghost var on := Here(w) && w.value.IfStmt?;
      if on {
        IfHere(toks, pos, w.value, Types(), loopDepth > 0, switchDepth > 0);
      }
      ParseHead(if on then Some(w.value.c) else None);
      ParseBranches(if on then w else None);
    }

    /** The statement of an `if` and its `else` branch. */
    method ParseBranches(ghost w: Option<Stmt>)
      requires Valid()
      modifies this
      ensures Did(old(pos))
      ensures old(w.Some? && w.value.IfStmt? && BranchesAt(w.value)) ==>
                Took(old(pos) + |FlatStmt(w.value.a)| + (if w.value.b.Some? then 1 + |FlatStmt(w.value.b.value)| else 0),
                     old(Types()))
      decreases |toks| - pos, 15
    {
      hide Push, ScanAfter, CalmAt, OpenAt, Finite, Outer, TypesOf, Naming, StmtAt, FlatStmt;
      ghost var on := w.Some? && w.value.IfStmt? && BranchesAt(w.value);
      ParseStatement(if on then Some(w.value.a) else None);
      ParseElse(if on then w.value.b else None);
    }

    ghost predicate BranchesAt(s: Stmt)
      requires s.IfStmt?
      reads this
    {
      var e := pos + |FlatStmt(s.a)|;
      && StmtAt(toks, pos, s.a, Types(), loopDepth > 0, switchDepth > 0) && !s.a.DeclStmt?
      && (if s.b.None? then TokAt(toks, e) != Key(Else)
          else && TokAt(toks, e) == Key(Else) && !s.b.value.DeclStmt?
               && StmtAt(toks, e + 1, s.b.value, Types(), loopDepth > 0, switchDepth > 0))
    }

    /** The `else` branch, if there is one. */
    method ParseElse(ghost w: Option<Stmt>)
      requires Valid()
      modifies this
      ensures Did(old(pos))
      ensures old(if w.Some? then Check(Key(Else)) && !w.value.DeclStmt?
                                  && StmtAt(toks, pos + 1, w.value, Types(), loopDepth > 0, switchDepth > 0)
                  else !Check(Key(Else))) ==>
                Took(old(pos) + (if w.Some? then 1 + |FlatStmt(w.value)| else 0), old(Types()))
      decreases |toks| - pos, 14
    {
      hide Push, ScanAfter, CalmAt, OpenAt, Finite, Outer, TypesOf, Naming, StmtAt, FlatStmt;
      var m := MatchToken(Key(Else));
      if m { ParseStatement(w); }
    }

    method ParseLoopBody(ghost w: Option<Stmt>)
      requires Valid()
      modifies this
      ensures Did(old(pos))
      ensures old(w.Some? && StmtAt(toks, pos, w.value, Types(), true, switchDepth > 0)) && !w.value.DeclStmt? ==>
                Took(old(pos) + |FlatStmt(w.value)|, old(Types()))
      decreases |toks| - pos, 14
    {
      hide Push, ScanAfter, CalmAt, OpenAt, Finite, Outer, TypesOf, Naming, StmtAt, FlatStmt;
      loopDepth := loopDepth + 1;
      ParseStatement(w);
      loopDepth := loopDepth - 1;
    }

    method ParseWhile(ghost w: Option<Stmt>)
      requires Valid() && Check(Key(While))
      modifies this
      ensures Did(old(pos)) && pos > old(pos)
      ensures old(Here(w) && w.value.WhileStmt?) ==> Took(old(pos) + |FlatStmt(w.value)|, old(Types()))
      decreases |toks| - pos, 11
    {
      hide Push, ScanAfter, CalmAt, OpenAt, Finite, Outer, TypesOf, Naming, StmtAt, FlatStmt, ConditionAt,
           FlatCondition;
      ghost var on := Here(w) && w.value.WhileStmt?;
      if on {
        HeadedHere(toks, pos, w.value, Types(), loopDepth > 0, switchDepth > 0);
      }
      ParseHead(if on then Some(w.value.c) else None);
      ParseLoopBody(if on then Some(w.value.s) else None);
    }

    method ParseDo(ghost w: Option<Stmt>)
      requires Valid() && Check(Key(Do))
      modifies this
      ensures Did(old(pos)) && pos > old(pos)
      ensures old(Here(w) && w.value.DoStmt?) ==> Took(old(pos) + |FlatStmt(w.value)|, old(Types()))
      decreases |toks| - pos, 11
    {
      hide Push, ScanAfter, CalmAt, OpenAt, Finite, Outer, TypesOf, Naming, StmtAt, FlatStmt, ConditionAt,
           FlatCondition;
      ghost var on := Here(w) && w.value.DoStmt?;
      if on {
        DoHere(toks, pos, w.value, Types(), loopDepth > 0, switchDepth > 0);
      }
      Advance();
      ParseLoopBody(if on then Some(w.value.s) else None);
      ParseDoCondition(if on then Some(w.value.c) else None);
    }

    /** `while ( expression ) ;` */
    method ParseDoCondition(ghost w: Option<Expr>)
      requires Valid()
      modifies this
      ensures Did(old(pos))
      ensures old(w.Some? && Check(Key(While)) && ConditionAt(toks, pos + 1, w.value, Types())
                  && TokAt(toks, pos + 1 + |FlatCondition(w.value)|) == Plain(Semicolon)) ==>
                Took(old(pos) + 2 + |FlatCondition(w.value)|, old(Types()))
      decreases |toks| - pos, 10
    {
      hide Push, ScanAfter, CalmAt, OpenAt, Finite, Outer, TypesOf, Naming, ConditionAt, FlatCondition;
      Expect(Key(While));
      ParseCondition(w);
      Expect(Plain(Semicolon));
    }

    method ParseFor(ghost w: Option<Stmt>)
      requires Valid() && Check(Key(For))
      modifies this
      ensures Did(old(pos)) && pos > old(pos)
      ensures old(Here(w) && w.value.ForStmt?) ==> Took(old(pos) + |FlatStmt(w.value)|, old(Types()))
      decreases |toks| - pos, 11
    {
      hide Push, ScanAfter, CalmAt, OpenAt, Finite, Outer, TypesOf, Naming, StmtAt, FlatStmt, HeadAt, HeadSize;
      ghost var on := Here(w) && w.value.ForStmt?;
      if on {
        ForParts(w.value);
      }
      Advance();
      ParseForHead(if on then w else None);
      ParseLoopBody(if on then Some(w.value.s) else None);
    }

    /** What stands in the parentheses of a `for`. */
    method ParseForHead(ghost w: Option<Stmt>)
      requires Valid()
      modifies this
      ensures Did(old(pos))
      ensures old(w.Some? && w.value.ForStmt? && HeadAt(pos, w.value, Types())) ==>
                Took(old(pos) + HeadSize(w.value), old(Types()))
      decreases |toks| - pos, 13
    {
      hide Push, ScanAfter, CalmAt, OpenAt, Finite, Outer, TypesOf, Naming, ForInitAt, FlatForInit, OptionAt,
           FlatOption;
      ghost var on := w.Some? && w.value.ForStmt? && HeadAt(pos, w.value, Types());
      if on {
        OptionEnd(toks, pos + 1 + |FlatForInit(w.value.init)| + |FlatOption(w.value.test)| + 1, w.value.step, RParen, Types());
      }
      Closes(OpenAt(pos), Plain(LParen), Plain(RParen));
      Expect(Plain(LParen));
      ParseForInit(if on then Some(w.value.init) else None);
      ParseForSteps(if on then w else None);
      Expect(Plain(RParen));
    }

    ghost predicate HeadAt(at: nat, s: Stmt, ts: iset<string>)
      requires s.ForStmt?
    {
      var test := at + 1 + |FlatForInit(s.init)|;
      && TokAt(toks, at) == Plain(LParen) && ForInitAt(toks, at + 1, s.init, ts)
      && OptionAt(toks, test, s.test, Semicolon, ts)
      && OptionAt(toks, test + |FlatOption(s.test)| + 1, s.step, RParen, ts)
    }

    lemma ForParts(s: Stmt)
      requires Here(Some(s)) && s.ForStmt?
      ensures var close := pos + 1 + HeadSize(s);
              && HeadAt(pos + 1, s, Types()) && StmtAt(toks, close, s.s, Types(), true, switchDepth > 0)
              && !s.s.DeclStmt? && pos + |FlatStmt(s)| == close + |FlatStmt(s.s)|
    {
      hide TypesOf, StmtAt, FlatStmt, ForInitAt, FlatForInit, OptionAt, FlatOption;
      ForHere(toks, pos, s, Types(), loopDepth > 0, switchDepth > 0);
    }

    function HeadSize(s: Stmt): nat
      requires s.ForStmt?
    {
      3 + |FlatForInit(s.init)| + |FlatOption(s.test)| + |FlatOption(s.step)|
    }

    /** The test and the increment, either of which may be absent. */
    method ParseForSteps(ghost w: Option<Stmt>)
      requires Valid()
      modifies this
      ensures Did(old(pos))
      ensures old(w.Some? && w.value.ForStmt? && OptionAt(toks, pos, w.value.test, Semicolon, Types())
                  && OptionAt(toks, pos + |FlatOption(w.value.test)| + 1, w.value.step, RParen, Types())) ==>
                Took(old(pos) + |FlatOption(w.value.test)| + 1 + |FlatOption(w.value.step)|, old(Types()))
      decreases |toks| - pos, 11
    {
      hide Push, ScanAfter, CalmAt, OpenAt, Finite, Outer, TypesOf, Naming, OptionAt, FlatOption, ExprAt, FlatExpr;
      ghost var test: Option<Expr>, step: Option<Expr> := None, None;
      if w.Some? && w.value.ForStmt? && OptionAt(toks, pos, w.value.test, Semicolon, Types())
         && OptionAt(toks, pos + |FlatOption(w.value.test)| + 1, w.value.step, RParen, Types()) {
        test, step := w.value.test, w.value.step;
        OptionParts(toks, pos, test, Semicolon, Types());
        OptionEnd(toks, pos, test, Semicolon, Types());
        OptionParts(toks, pos + |FlatOption(test)| + 1, step, RParen, Types());
      }
      if !Check(Plain(Semicolon)) { ParseExpr(0, test); }
      Expect(Plain(Semicolon));
      if !Check(Plain(RParen)) { ParseExpr(0, step); }
    }

    method ParseForInit(ghost w: Option<ForInit>)
      requires Valid()
      modifies this
      ensures Did(old(pos))
      ensures old(w.Some? && ForInitAt(toks, pos, w.value, Types())) ==>
                Took(old(pos) + |FlatForInit(w.value)|, old(Types()))
      decreases |toks| - pos, 12
    {
      hide Push, ScanAfter, CalmAt, OpenAt, Finite, Outer, TypesOf, Naming, ForInitAt, FlatForInit, ExprAt, FlatExpr,
           DeclarationAt, FlatDeclaration, AfterDeclaration, IsTypeStart, StartsExpr, StartsDeclaration;
      ghost var on := w.Some? && ForInitAt(toks, pos, w.value, Types());
      if on {
        ForInitHere(toks, pos, w.value, Types());
      }
      Starts();
      if Check(Plain(Semicolon)) {
        Advance();
      } else if IsTypeStart() {
        ParseDeclaration(if on then Some(w.value.d) else None);
      } else {
        ParseExpr(0, if on then Some(w.value.e) else None);
        Expect(Plain(Semicolon));
      }
    }

    method ParseSwitch(ghost w: Option<Stmt>)
      requires Valid() && Check(Key(Switch))
      modifies this
      ensures Did(old(pos)) && pos > old(pos)
      ensures old(Here(w) && w.value.SwitchStmt?) ==> Took(old(pos) + |FlatStmt(w.value)|, old(Types()))
      decreases |toks| - pos, 11
    {
      hide Push, ScanAfter, CalmAt, OpenAt, Finite, Outer, TypesOf, Naming, StmtAt, FlatStmt, ConditionAt,
           FlatCondition;
      ghost var on := Here(w) && w.value.SwitchStmt?;
      if on {
        HeadedHere(toks, pos, w.value, Types(), loopDepth > 0, switchDepth > 0);
      }
      ParseHead(if on then Some(w.value.c) else None);
      ParseSwitchBody(if on then Some(w.value.s) else None);
    }

    method ParseSwitchBody(ghost w: Option<Stmt>)
      requires Valid()
      modifies this
      ensures Did(old(pos))
      ensures old(w.Some? && StmtAt(toks, pos, w.value, Types(), loopDepth > 0, true)) && !w.value.DeclStmt? ==>
                Took(old(pos) + |FlatStmt(w.value)|, old(Types()))
      decreases |toks| - pos, 14
    {
      hide Push, ScanAfter, CalmAt, OpenAt, Finite, Outer, TypesOf, Naming, StmtAt, FlatStmt;
      switchDepth := switchDepth + 1;
      ParseStatement(w);
      switchDepth := switchDepth - 1;
    }

    /** The statement after a `case` or `default`, unless another label or the end of the block follows. */
    method ParseLabelled(ghost w: Option<Stmt>)
      requires Valid()
      modifies this
      ensures Did(old(pos))
      ensures old(w.Some? && IsCase(w.value)
                  && ThenAt(toks, pos, w.value.then_, Types(), loopDepth > 0, switchDepth > 0)) ==>
                Took(old(pos) + |FlatThen(w.value.then_)|, old(Types()))
      decreases |toks| - pos, 14
    {
      hide Push, ScanAfter, CalmAt, OpenAt, Finite, Outer, TypesOf, Naming, StmtAt, FlatStmt;
      ghost var on := w.Some? && IsCase(w.value)
                      && ThenAt(toks, pos, w.value.then_, Types(), loopDepth > 0, switchDepth > 0);
      if !Check(Key(Case)) && !Check(Key(Default)) && !Check(Plain(RBrace)) {
        ParseStatement(if on then w.value.then_ else None);
      }
    }

    method ParseCase(ghost w: Option<Stmt>)
      requires Valid() && Check(Key(Case))
      modifies this
      ensures Did(old(pos)) && pos > old(pos)
      ensures old(Here(w) && w.value.CaseStmt?) ==> Took(old(pos) + |FlatStmt(w.value)|, old(Types()))
      decreases |toks| - pos, 11
    {
      hide Push, ScanAfter, CalmAt, OpenAt, Finite, Outer, TypesOf, Naming, StmtAt, FlatStmt, ExprAt, FlatExpr,
           ThenAt, FlatThen;
      ghost var on := Here(w) && w.value.CaseStmt?;
      if on {
        CaseHere(toks, pos, w.value, Types(), loopDepth > 0, switchDepth > 0);
      }
      ParseCaseValue(if on then Some(w.value.e) else None);
      ParseLabelled(w);
    }

    /** `case expression :` */
    method ParseCaseValue(ghost w: Option<Expr>)
      requires Valid() && Check(Key(Case))
      modifies this
      ensures Did(old(pos)) && pos > old(pos)
      ensures old(w.Some? && ExprAt(toks, pos + 1, w.value, Types(), 0)
                  && TokAt(toks, pos + 1 + |FlatExpr(w.value)|) == Plain(Colon)) ==>
                Took(old(pos) + |FlatExpr(w.value)| + 2, old(Types()))
      decreases |toks| - pos, 10
    {
      hide Push, ScanAfter, CalmAt, OpenAt, Finite, Outer, TypesOf, Naming, ExprAt, FlatExpr;
      Advance();
      ParseExpr(0, w);
      Expect(Plain(Colon));
    }

    method ParseDefault(ghost w: Option<Stmt>)
      requires Valid() && Check(Key(Default))
      modifies this
      ensures Did(old(pos)) && pos > old(pos)
      ensures old(Here(w) && w.value.DefaultStmt?) ==> Took(old(pos) + |FlatStmt(w.value)|, old(Types()))
      decreases |toks| - pos, 11
    {
      hide Push, ScanAfter, CalmAt, OpenAt, Finite, Outer, TypesOf, Naming, StmtAt, FlatStmt, ThenAt, FlatThen;
      if Here(w) && w.value.DefaultStmt? {
        DefaultHere(toks, pos, w.value, Types(), loopDepth > 0, switchDepth > 0);
      }
      Advance();
      ParseColonThen(w);
    }

    /** The colon of a label, and what it labels. */
    method ParseColonThen(ghost w: Option<Stmt>)
      requires Valid()
      modifies this
      ensures Did(old(pos))
      ensures old(w.Some? && IsCase(w.value) && Check(Plain(Colon))
                  && ThenAt(toks, pos + 1, w.value.then_, Types(), loopDepth > 0, switchDepth > 0)) ==>
                Took(old(pos) + 1 + |FlatThen(w.value.then_)|, old(Types()))
      decreases |toks| - pos, 15
    {
      hide Push, ScanAfter, CalmAt, OpenAt, Finite, Outer, TypesOf, Naming, ThenAt, FlatThen;
      Expect(Plain(Colon));
      ParseLabelled(w);
    }

    /** A name begins a label, or an expression whose first operand is already consumed. */
    method ParseLabelOrExpr(ghost w: Option<Stmt>)
      requires Valid() && IsName(Peek())
      modifies this
      ensures Did(old(pos)) && pos > old(pos)
      ensures old(Here(w) && (w.value.LabelStmt? || w.value.ExprStmt?)) ==>
                Took(old(pos) + |FlatStmt(w.value)|, old(Types()))
      decreases |toks| - pos, 11
    {
      hide Push, ScanAfter, CalmAt, OpenAt, Finite, Outer, Lbp, TypesOf, Naming, StmtAt, FlatStmt, ExprAt, FlatExpr,
           StartsExpr, SpineAt, Depth;
      ghost var labelled, e := AfterFirstName(w);
      Advance();
      if Check(Plain(Colon)) {
        ParseAfterColon(labelled);
      } else {
        ParseNameExpr(e);
      }
    }

    /** A colon and the statement it labels. */
    method ParseAfterColon(ghost w: Option<Stmt>)
      requires Valid() && Check(Plain(Colon))
      modifies this
      ensures Did(old(pos)) && pos > old(pos)
      ensures old(w.Some? && StmtAt(toks, pos + 1, w.value, Types(), loopDepth > 0, switchDepth > 0)) && !w.value.DeclStmt? ==>
                Took(old(pos) + 1 + |FlatStmt(w.value)|, old(Types()))
      decreases |toks| - pos, 9
    {
      hide Push, ScanAfter, CalmAt, OpenAt, Finite, Outer, TypesOf, Naming, StmtAt, FlatStmt;
      Advance();
      ParseStatement(w);
    }

    /** The statement behind a label, or the expression that the name begins. */
    lemma AfterFirstName(w: Option<Stmt>) returns (labelled: Option<Stmt>, e: Option<Expr>)
      requires IsName(Peek())
      ensures Here(w) && w.value.LabelStmt? ==>
                && labelled == Some(w.value.s) && !w.value.s.DeclStmt? && TokAt(toks, pos + 1) == Plain(Colon)
                && StmtAt(toks, pos + 2, w.value.s, Types(), loopDepth > 0, switchDepth > 0)
                && |FlatStmt(w.value)| == 2 + |FlatStmt(w.value.s)|
      ensures Here(w) && w.value.ExprStmt? ==>
                && e == Some(w.value.e) && TokAt(toks, pos + 1) != Plain(Colon) && ExprAt(toks, pos, w.value.e, Types(), 0)
                && TokAt(toks, pos + |FlatExpr(w.value.e)|) == Plain(Semicolon)
                && |FlatExpr(SpineAt(w.value.e, Depth(w.value.e)))| == 1
                && |FlatStmt(w.value)| == |FlatExpr(w.value.e)| + 1
    {
      hide TypesOf, StmtAt, FlatStmt, ExprAt, FlatExpr, StartsExpr, SpineAt, Depth;
      labelled, e := None, None;
      if Here(w) && w.value.LabelStmt? {
        LabelHere(toks, pos, w.value, Types(), loopDepth > 0, switchDepth > 0);
        labelled := Some(w.value.s);
      } else if Here(w) && w.value.ExprStmt? {
        ExprStmtHere(toks, pos, w.value, Types(), loopDepth > 0, switchDepth > 0);
        NameFirst(toks, pos, w.value.e, Types());
        e := Some(w.value.e);
      }
    }

    /** The rest of an expression statement whose first name has been consumed. */
    method ParseNameExpr(ghost w: Option<Expr>)
      requires Valid() && pos > 0
      modifies this
      ensures Did(old(pos)) && pos >= old(pos)
      ensures old(w.Some? && ExprAt(toks, pos - 1, w.value, Types(), 0)
                  && TokAt(toks, pos - 1 + |FlatExpr(w.value)|) == Plain(Semicolon))
              && |FlatExpr(SpineAt(w.value, Depth(w.value)))| == 1 ==>
                Took(old(pos) + |FlatExpr(w.value)|, old(Types()))
      decreases |toks| - pos, 9
    {
      hide Push, ScanAfter, CalmAt, OpenAt, Finite, Outer, Lbp, TypesOf, ExprAt, FlatExpr, SpineAt, Depth;
      ParseLeds(w);
      Expect(Plain(Semicolon));
    }

    /** The loop that goes on with an expression whose first name has been consumed. */
    method ParseLeds(ghost w: Option<Expr>)
      requires Valid() && pos > 0
      modifies this
      ensures Did(old(pos)) && pos >= old(pos)
      ensures old(w.Some? && ExprAt(toks, pos - 1, w.value, Types(), 0)) && |FlatExpr(SpineAt(w.value, Depth(w.value)))| == 1 ==>
                Took(old(pos) - 1 + |FlatExpr(w.value)|, old(Types()))
      decreases |toks| - pos, 8
    {
      hide Push, ScanAfter, CalmAt, OpenAt, Finite, Outer, ExprAt, LedAt, FlatExpr, Rest, TypesOf, Naming, Lbp,
           SpineAt, Depth;
      ghost var start, ts := pos - 1, Types();
      ghost var on := w.Some? && ExprAt(toks, start, w.value, ts, 0) && |FlatExpr(SpineAt(w.value, Depth(w.value)))| == 1;
      ghost var k := if on then Depth(w.value) else 0;
      while Power(Peek()) > 0
        invariant Did(old(pos)) && pos >= old(pos)
        invariant on ==> 0 <= k <= Depth(w.value) && Took(start + |FlatExpr(SpineAt(w.value, k))|, ts)
        decreases |toks| - pos
      {
        ghost var p: Option<Expr> := None;
        if on {
          SpineTurn(toks, start, w.value, ts, 0, k);
          p := Some(SpineAt(w.value, k - 1));
        }
        var op := Peek();
        Advance();
        ParseLed(op, p);
        k := if on then k - 1 else 0;
      }
      if on {
        SpineTurn(toks, start, w.value, ts, 0, k);
      }
    }

    /** A block has its own scope, which is gone afterwards. */
    method ParseCompound(ghost w: Option<Stmt>)
      requires Valid()
      modifies this
      ensures Did(old(pos)) && (!old(AtEnd()) ==> pos > old(pos)) && scopes == old(scopes)
      ensures old(Here(w) && w.value.Block?) ==> Took(old(pos) + |FlatStmt(w.value)|, old(Types()))
      decreases |toks| - pos, 8
    {
      hide Push, ScanAfter, CalmAt, OpenAt, Finite, TypesOf, Naming, StmtAt, FlatStmt, StmtsAt, FlatStmts, AfterStmt;
      ghost var on := Here(w) && w.value.Block?;
      ghost var ss := if on then w.value.items else [];
      ghost var end := pos + 1 + |FlatStmts(ss)|;
      if on {
        BlockHere(toks, pos, w.value, Types(), loopDepth > 0, switchDepth > 0);
      }
      Closes(OpenAt(pos), Plain(LBrace), Plain(RBrace));
      Expect(Plain(LBrace));
      ghost var inside, reported, saved := pos, errors, scopes;
      EnteredTypes(scopes);
      scopes := [[]] + scopes;
      while !Check(Plain(RBrace)) && !AtEnd()
        invariant Valid() && inside <= pos && (!old(AtEnd()) ==> pos > old(pos)) && reported <= errors
        invariant loopDepth == old(loopDepth) && switchDepth == old(switchDepth)
        invariant scopes != [] && Outer(scopes) == saved
        invariant errors == old(errors) ==> Level(inside, pos)
        invariant on ==> StmtsGo(ss, end) && errors == old(errors)
        decreases |toks| - pos
      {
        if on {
          StmtsTurn(ss, end);
        }
        ParseStatement(if on then Some(ss[0]) else None);
        ss := if on then ss[1..] else [];
      }
      if on {
        StmtsTurn(ss, end);
      }
      Expect(Plain(RBrace));
      scopes := Outer(scopes);
    }

    ghost predicate StmtsGo(ss: seq<Stmt>, end: nat)
      reads this
    {
      StmtsAt(toks, pos, ss, Types(), loopDepth > 0, switchDepth > 0) && pos + |FlatStmts(ss)| == end
    }

    lemma StmtsTurn(ss: seq<Stmt>, end: nat)
      requires StmtsGo(ss, end)
      ensures ss == [] <==> Check(Plain(RBrace))
      ensures ss == [] ==> pos == end
      ensures ss != [] ==>
                && Here(Some(ss[0])) && !AtEnd() && pos + |FlatStmt(ss[0])| + |FlatStmts(ss[1..])| == end
                && StmtsAt(toks, pos + |FlatStmt(ss[0])|, ss[1..], AfterStmt(ss[0], Types()), loopDepth > 0, switchDepth > 0)
    {
      hide TypesOf, Naming, StmtAt, FlatStmt, StmtsAt, FlatStmts, AfterStmt;
      if ss == [] {
        StmtsDone(toks, pos, ss, Types(), loopDepth > 0, switchDepth > 0);
      } else {
        StmtsStep(toks, pos, ss, Types(), loopDepth > 0, switchDepth > 0);
      }
    }

    // ----- declarations -----

    /** The declarators of a declaration; at the top level, possibly a function definition. */
    method ParseDeclList(ds: DeclSpec, topLevel: bool, ghost w: Option<seq<InitDeclarator>>, ghost f: Option<External>)
      requires Valid()
      modifies this
      ensures Did(old(pos))
      ensures old(w.Some? && InitsAt(toks, pos, w.value, ds.storage == Some(Typedef), Types())) && !BadCombination(ds) ==>
                Took(old(pos) + |FlatInits(w.value)| + 1, AfterInits(w.value, ds.storage == Some(Typedef), old(Types())))
      ensures old(f.Some? && FunctionAt(toks, pos, f.value, Types()) && loopDepth == switchDepth == 0)
              && w.None? && topLevel && ds.storage != Some(Typedef) && !BadCombination(ds) ==>
                Took(old(pos) + |FlatDeclarator(f.value.d)| + |FlatStmt(Block(f.value.body))|,
                     AfterName(f.value.d, false, old(Types())))
      decreases |toks| - pos, 10, 2
    {
      hide Push, ScanAfter, CalmAt, OpenAt, Finite, Outer, TypesOf, InitsAt, FlatInits, AfterInits, InitDeclaratorAt,
           FlatInitDeclarator, AfterName, FunctionAt, FlatDeclarator, FlatStmt, BadCombination;
      var base := ResolveSpec(ds);
      if w.Some? && InitsAt(toks, pos, w.value, ds.storage == Some(Typedef), Types()) {
        ghost var typedef := ds.storage == Some(Typedef);
        InitsTurn(w.value, typedef, pos + |FlatInits(w.value)|, AfterInits(w.value, typedef, Types()));
      }
      if f.Some? && FunctionAt(toks, pos, f.value, Types()) {
        FunctionKnown(toks, pos, f.value, Types());
      }
      if Check(Plain(Semicolon)) {
        Advance();
        return;
      }
      ParseDeclarators(base, ds, topLevel, w, f);
    }

    method ParseDeclarators(base: Shape, ds: DeclSpec, topLevel: bool, ghost w: Option<seq<InitDeclarator>>,
                            ghost f: Option<External>)
      requires Valid()
      modifies this
      ensures Did(old(pos))
      ensures old(w.Some? && InitsAt(toks, pos, w.value, ds.storage == Some(Typedef), Types())) && w.value != [] ==>
                Took(old(pos) + |FlatInits(w.value)| + 1, AfterInits(w.value, ds.storage == Some(Typedef), old(Types())))
      ensures old(f.Some? && FunctionAt(toks, pos, f.value, Types()) && loopDepth == switchDepth == 0)
              && w.None? && topLevel && ds.storage != Some(Typedef) ==>
                Took(old(pos) + |FlatDeclarator(f.value.d)| + |FlatStmt(Block(f.value.body))|,
                     AfterName(f.value.d, false, old(Types())))
      decreases |toks| - pos, 10, 1
    {
      hide Push, ScanAfter, CalmAt, OpenAt, Finite, Outer, TypesOf, InitsAt, FlatInits, AfterInits, InitDeclaratorAt,
           FlatInitDeclarator, AfterName, FunctionAt, FlatDeclarator, FlatStmt;
      ghost var typedef := ds.storage == Some(Typedef);
      ghost var on := w.Some? && InitsAt(toks, pos, w.value, typedef, Types()) && w.value != [];
      ghost var def := f.Some? && FunctionAt(toks, pos, f.value, Types()) && loopDepth == switchDepth == 0
                       && w.None? && topLevel && !typedef;
      ghost var xs := if on then w.value else [];
      ghost var end, after := pos + |FlatInits(xs)|, AfterInits(xs, typedef, Types());
      if on {
        InitsTurn(xs, typedef, end, after);
      }
      var more := true;
      while more
        invariant Did(old(pos))
        invariant on ==> errors == old(errors)
        invariant on && more ==> InitsGo(xs, typedef, end, after) && xs != []
        invariant on && !more ==> pos == end && Types() == after
        invariant def ==> more && pos == old(pos) && errors == old(errors) && Types() == old(Types())
        decreases |toks| - pos, more
      {
        if on {
          InitsTurn(xs, typedef, end, after);
        }
        var whole;
        more, whole := ParseOneDeclarator(base, ds, topLevel, if on then Some(xs[0]) else None, if def then f else None);
        if whole { return; }
        xs := if on then xs[1..] else [];
      }
      Expect(Plain(Semicolon));
    }

    /**
     One declarator and the comma after it, which says that there are more. A function body makes the
     declaration whole.
     */
    method ParseOneDeclarator(base: Shape, ds: DeclSpec, topLevel: bool, ghost w: Option<InitDeclarator>,
                              ghost f: Option<External>) returns (more: bool, whole: bool)
      requires Valid()
      modifies this
      ensures Did(old(pos)) && (more ==> pos > old(pos))
      ensures old(w.Some? && InitDeclaratorAt(toks, pos, w.value, ds.storage == Some(Typedef), Types())) ==>
                var next := old(pos) + |FlatInitDeclarator(w.value)|;
                && !whole && more == (TokAt(toks, next) == Plain(Comma))
                && Took(if more then next + 1 else next, AfterName(w.value.d, ds.storage == Some(Typedef), old(Types())))
      ensures old(f.Some? && FunctionAt(toks, pos, f.value, Types()) && loopDepth == switchDepth == 0)
              && w.None? && topLevel && ds.storage != Some(Typedef) ==>
                && whole
                && Took(old(pos) + |FlatDeclarator(f.value.d)| + |FlatStmt(Block(f.value.body))|,
                        AfterName(f.value.d, false, old(Types())))
      decreases |toks| - pos, 10, 0
    {
      hide Push, ScanAfter, CalmAt, OpenAt, Finite, Outer, TypesOf, Naming, InitDeclaratorAt, FlatInitDeclarator,
           FunctionAt, FlatDeclarator, FlatStmt, DeclaratorAt, Declared, InitAt, FlatInit, StmtAt, FunctionParams,
           HideNames, ParamNames, Transparent, AfterName;
      ghost var on := w.Some? && InitDeclaratorAt(toks, pos, w.value, ds.storage == Some(Typedef), Types());
      ghost var def := f.Some? && FunctionAt(toks, pos, f.value, Types()) && loopDepth == switchDepth == 0
                       && w.None? && topLevel && ds.storage != Some(Typedef);
      if on {
        InitDeclaratorParts(toks, pos, w.value, ds.storage == Some(Typedef), Types());
      }
      if def {
        FunctionKnown(toks, pos, f.value, Types());
      }
      var x, shape := ParseDeclarator(base, if on then Some(w.value.d) else if def then Some(f.value.d) else None);
      more, whole := ParseNamed(x, shape, ds.storage == Some(Typedef), topLevel, if on then w else None, if def then f else None);
    }

    /** What comes after the declarator of `x`, and the comma after it. */
    method ParseNamed(x: Option<string>, shape: Shape, typedef: bool, topLevel: bool, ghost w: Option<InitDeclarator>,
                      ghost f: Option<External>) returns (more: bool, whole: bool)
      requires Valid()
      modifies this
      ensures Did(old(pos)) && (more ==> pos > old(pos))
      ensures old(w.Some? && x.Some? && ValueAt(w.value, x.value, typedef)) ==>
                var next := old(pos) + InitSize(w.value.init);
                && !whole && more == (TokAt(toks, next) == Plain(Comma))
                && Took(if more then next + 1 else next, AfterName(w.value.d, typedef, old(Types())))
      ensures old(f.Some? && loopDepth == switchDepth == 0 && BodyAt(f.value) && Check(Plain(LBrace)))
              && x == Declared(f.value.d) && topLevel && !typedef && shape.Function?
              && shape.params == ParamNames(FunctionParams(f.value.d).value) ==>
                whole && Took(old(pos) + |FlatStmt(Block(f.value.body))|, AfterName(f.value.d, false, old(Types())))
      decreases |toks| - pos, 9, 2
    {
      hide Push, ScanAfter, CalmAt, OpenAt, Finite, Outer, TypesOf, Naming, FlatStmt, Declared, InitSize,
           FunctionParams, ParamNames, AfterName, ValueAt, BodyAt;
      more, whole := false, false;
      if f.Some? && BodyAt(f.value) {
        BodyNamed(f.value);
      }
      if x.None? {
        // `continue` re-tests the loop condition, which looks for a second comma.
        var m := MatchToken(Plain(Comma));
        if !m { return; }
      } else {
        whole := ParseDeclared(x.value, shape, typedef, topLevel, w, f);
        if whole { return; }
      }
      more := MatchToken(Plain(Comma));
    }

    lemma BodyNamed(x: External)
      requires BodyAt(x)
      ensures x.FunctionDef? && Declared(x.d).Some? && FunctionParams(x.d).Some?
    {
      hide Declared, FunctionParams, TypesOf, StmtAt, HideNames;
    }

    function InitSize(i: Option<Init>): nat {
      if i.Some? then 1 + |FlatInit(i.value)| else 0
    }

    /** A typedef, the body of a function, or an object with its initializer. */
    method ParseDeclared(x: string, shape: Shape, typedef: bool, topLevel: bool, ghost w: Option<InitDeclarator>,
                         ghost f: Option<External>) returns (whole: bool)
      requires Valid()
      modifies this
      ensures Did(old(pos))
      ensures old(w.Some? && ValueAt(w.value, x, typedef)) ==>
                && !whole
                && Took(old(pos) + InitSize(w.value.init), AfterName(w.value.d, typedef, old(Types())))
      ensures old(f.Some? && loopDepth == switchDepth == 0 && BodyAt(f.value) && Check(Plain(LBrace)))
              && x == Declared(f.value.d).value && topLevel && !typedef && shape.Function?
              && shape.params == ParamNames(FunctionParams(f.value.d).value) ==>
                whole && Took(old(pos) + |FlatStmt(Block(f.value.body))|, AfterName(f.value.d, false, old(Types())))
      decreases |toks| - pos, 9, 1
    {
      hide Push, ScanAfter, CalmAt, OpenAt, Finite, Outer, TypesOf, Naming, FlatStmt, Declared, InitAt, FlatInit,
           StmtAt, FunctionParams, HideNames, ParamNames;
      whole := false;
      if typedef {
        Define(x, TypeName(shape));
      } else if topLevel && shape.Function? && Check(Plain(LBrace)) {
        ParseFunctionBody(x, shape, f);
        whole := true;
      } else {
        ParseValue(x, if w.Some? then w.value.init else None);
      }
    }

    /** What follows the declarator of `x`. */
    ghost predicate ValueAt(w: InitDeclarator, x: string, typedef: bool)
      reads this
    {
      && Declared(w.d) == Some(x) && !Check(Plain(LBrace)) && (w.init.Some? ==> !typedef)
      && (if w.init.Some? then Check(Plain(Token.Assign)) && InitAt(toks, pos + 1, w.init.value, Types())
          else !Check(Plain(Token.Assign)))
    }

    /** The initializer of a declarator, if there is one; then its name is defined. */
    method ParseValue(x: string, ghost w: Option<Init>)
      requires Valid()
      modifies this
      ensures Did(old(pos))
      ensures old(if w.Some? then Check(Plain(Token.Assign)) && InitAt(toks, pos + 1, w.value, Types())
                  else !Check(Plain(Token.Assign))) ==>
                Took(old(pos) + InitSize(w), Naming(old(Types()), x, false))
      decreases |toks| - pos, 9, 0
    {
      hide Push, ScanAfter, CalmAt, OpenAt, Finite, Outer, TypesOf, Naming, InitAt, FlatInit;
      var m := MatchToken(Plain(Token.Assign));
      if m { ParseInitializer(w); }
      Define(x, OtherName);
    }

    ghost predicate InitsGo(xs: seq<InitDeclarator>, typedef: bool, end: nat, after: iset<string>)
      reads this
    {
      && InitsAt(toks, pos, xs, typedef, Types()) && pos + |FlatInits(xs)| == end
      && AfterInits(xs, typedef, Types()) == after
    }

    lemma InitsTurn(xs: seq<InitDeclarator>, typedef: bool, end: nat, after: iset<string>)
      requires InitsGo(xs, typedef, end, after)
      ensures TokAt(toks, end) == Plain(Semicolon) && (xs == [] <==> Check(Plain(Semicolon)))
      ensures xs == [] ==> pos == end && Types() == after
      ensures xs != [] ==>
                var next, ts1 := pos + |FlatInitDeclarator(xs[0])|, AfterName(xs[0].d, typedef, Types());
                && InitDeclaratorAt(toks, pos, xs[0], typedef, Types())
                && (if TokAt(toks, next) == Plain(Comma) then
                      && |xs| > 1 && InitsAt(toks, next + 1, xs[1..], typedef, ts1)
                      && next + 1 + |FlatInits(xs[1..])| == end && AfterInits(xs[1..], typedef, ts1) == after
                    else next == end && ts1 == after)
    {
      hide TypesOf, Naming, InitsAt, FlatInits, AfterInits, InitDeclaratorAt, FlatInitDeclarator, AfterName;
      InitsClose(toks, pos, xs, typedef, Types());
      if xs == [] {
        InitsDone(toks, pos, xs, typedef, Types());
      } else {
        InitsStep(toks, pos, xs, typedef, Types());
        NoMoreInits(xs, typedef, AfterName(xs[0].d, typedef, Types()));
      }
    }

    /** The parameters are defined in a scope around that of the body. */
    method ParseFunctionBody(x: string, shape: Shape, ghost f: Option<External>)
      requires Valid() && shape.Function? && Check(Plain(LBrace))
      modifies this
      ensures Did(old(pos)) && pos > old(pos)
      ensures old(f.Some? && loopDepth == switchDepth == 0 && BodyAt(f.value)) && x == Declared(f.value.d).value
              && shape.params == ParamNames(FunctionParams(f.value.d).value) ==>
                Took(old(pos) + |FlatStmt(Block(f.value.body))|, AfterName(f.value.d, false, old(Types())))
      decreases |toks| - pos, 9, 0
    {
      hide Push, ScanAfter, CalmAt, OpenAt, Finite, TypesOf, Naming, StmtAt, FlatStmt, HideNames, ParamNames,
           FunctionParams, Declared, Resolve;
      ghost var on := f.Some? && loopDepth == switchDepth == 0 && BodyAt(f.value) && x == Declared(f.value.d).value
                      && shape.params == ParamNames(FunctionParams(f.value.d).value);
      ghost var saved, ts := scopes, Types();
      EnteredTypes(scopes);
      scopes := [[]] + scopes;
      DefineParams(shape.params, if on then FunctionParams(f.value.d) else None);
      ParseCompound(if on then Some(Block(f.value.body)) else None);
      scopes := Outer(scopes);
      Define(x, OtherName);
    }

    ghost predicate BodyAt(x: External)
      reads this
    {
      && x.FunctionDef? && Declared(x.d).Some? && FunctionParams(x.d).Some?
      && StmtAt(toks, pos, Block(x.body), HideNames(FunctionParams(x.d).value, Types()), false, false)
    }

    method DefineParams(names: seq<Option<string>>, ghost w: Option<seq<Param>>)
      requires Valid()
      modifies this`scopes
      ensures Valid() && |scopes| == |old(scopes)| && Outer(scopes) == old(Outer(scopes))
      ensures w.Some? && names == ParamNames(w.value) ==> Types() == HideNames(w.value, old(Types()))
    {
      hide TypesOf, Naming, Declared, Resolve, HideNames, ParamNames;
      ghost var on := w.Some? && names == ParamNames(w.value);
      ghost var ps := if on then w.value else [];
      assert ps[0..] == ps;
      ParamNamesAre(ps);
      for i := 0 to |names|
        invariant Valid() && |scopes| == |old(scopes)| && Outer(scopes) == old(Outer(scopes))
        invariant on ==> i <= |ps| && HideNames(ps[i..], Types()) == HideNames(ps, old(Types()))
      {
        if on {
          HideStep(ps, i, Types());
        }
        if names[i].Some? { Define(names[i].value, OtherName); }
      }
      if on {
        HideDone(ps, Types());
      }
    }

    /** A translation unit: every token is consumed, whatever the stream. */
    method ParserParse(ghost w: Option<seq<External>>)
      requires Valid() && pos == 0 && |scopes| == 1
      modifies this
      ensures Did(0) && pos == |toks| && |scopes| == 1
      ensures old(w.Some? && UnitAt(toks, 0, w.value, Types()) && loopDepth == switchDepth == 0) ==> errors == old(errors)
    {
      hide Push, ScanAfter, CalmAt, OpenAt, Finite, Outer, TypesOf, Naming, UnitAt, ExternalAt, FlatExternal,
           AfterExternal, IsTypeStart;
      ghost var on := w.Some? && UnitAt(toks, 0, w.value, Types()) && loopDepth == switchDepth == 0;
      ghost var xs := if on then w.value else [];
      while !AtEnd()
        invariant Did(0)
        invariant on ==> UnitAt(toks, pos, xs, Types()) && errors == old(errors)
        decreases |toks| - pos
      {
        if on {
          UnitTurn(xs);
        }
        if Check(Key(Pragma)) {
          SkipPragma();
          continue;
        }
        if !IsTypeStart() {
          Report();
          Advance();
          continue;
        }
        ParseExternal(if on then Some(xs[0]) else None);
        xs := if on then xs[1..] else [];
      }
    }

    lemma UnitTurn(xs: seq<External>)
      requires UnitAt(toks, pos, xs, Types()) && !AtEnd()
      ensures xs != [] && IsTypeStart() && !Check(Key(Pragma)) && ExternalAt(toks, pos, xs[0], Types())
      ensures UnitAt(toks, pos + |FlatExternal(xs[0])|, xs[1..], AfterExternal(xs[0], Types()))
    {
      hide TypesOf, Naming, UnitAt, ExternalAt, FlatExternal, AfterExternal, IsTypeStart, StartsDeclaration, StartsExpr;
      if xs == [] {
        UnitDone(toks, pos, xs, Types());
      }
      UnitStep(toks, pos, xs, Types());
      Starts();
      StartsNeither(Peek(), Types());
    }

    /** A declaration or a function definition. */
    method ParseExternal(ghost w: Option<External>)
      requires Valid() && IsTypeStart()
      modifies this
      ensures Did(old(pos)) && pos > old(pos)
      ensures old(w.Some? && ExternalAt(toks, pos, w.value, Types()) && loopDepth == switchDepth == 0) ==>
                Took(old(pos) + |FlatExternal(w.value)|, AfterExternal(w.value, old(Types())))
    {
      hide Push, ScanAfter, CalmAt, OpenAt, Finite, Outer, TypesOf, Naming, ExternalAt, FlatExternal, AfterExternal,
           SpecsAt, FlatSpecs, AfterSpecs, InitsAt, FlatInits, AfterInits, FunctionAt, FlatDeclarator, FlatStmt,
           BadCombination, IsTypedef, IsTypeStart, AfterName;
      ghost var on := w.Some? && ExternalAt(toks, pos, w.value, Types()) && loopDepth == switchDepth == 0;
      if on {
        ExternalParts(toks, pos, w.value, Types());
      }
      var ds := ParseDeclSpec(if on then Some(SpecsOf(w.value)) else None);
      ParseDeclList(ds, true, if on && w.value.Declares? then Some(w.value.decl.ds) else None,
                    if on && w.value.FunctionDef? then w else None);
    }
  }

  lemma LedTokens(t: Tok)
    ensures t.Plain? && IsInfix(t.t) ==> !IsBracket(t)
    ensures !IsInfix(Question) && !IsInfix(LParen) && !IsInfix(LBracket)
    ensures !IsInfix(Dot) && !IsInfix(Arrow) && !IsInfix(PlusPlus) && !IsInfix(MinusMinus)
  {
    hide IsInfix;
    BracketPowers();
    PostfixPowers();
  }

  lemma BracketPowers()
    ensures !IsInfix(LParen) && !IsInfix(RParen) && !IsInfix(LBracket) && !IsInfix(RBracket)
    ensures !IsInfix(LBrace) && !IsInfix(RBrace)
  {
  }

  lemma PostfixPowers()
    ensures !IsInfix(Question) && !IsInfix(Dot) && !IsInfix(Arrow) && !IsInfix(PlusPlus) && !IsInfix(MinusMinus)
  {
  }

  /**
   Parse any token stream. The parser stops, with every token consumed. It finds no error in the text
   of any translation unit of the grammar of `Syntax`. A stream in which it finds no error is
   well-bracketed outside of skipped operands, and well-bracketed altogether exactly when the
   operands are; so it is when there are none.
   */
  method ParseUnit(toks: seq<Tok>) returns (errors: nat)
    requires Key(Eof) !in toks
    ensures forall u: seq<External> :: GoodUnit(u, iset{}) && FlatUnit(u) == toks ==> errors == 0
    ensures errors == 0 ==> ScanAfter(toks).open == Some([])
    ensures errors == 0 ==> (OpenAfter(toks) == Some([]) <==> OperandsClosed(toks))
    ensures errors == 0 && (forall t :: t in toks ==> !Skips(t)) ==> OpenAfter(toks) == Some([])
  {
    hide GoodUnit, FlatUnit;
    var p := new Parser(toks);
    assert p.ScanAt(0) == Scan(Some([]), Reading, true);
    ghost var w: Option<seq<External>> := None;
    if u: seq<External> :| GoodUnit(u, iset{}) && FlatUnit(u) == toks {
      w := Some(u);
      NoTypes();
      assert toks[0..|toks|] == toks;
    }
    p.ParserParse(w);
    assert toks[..|toks|] == toks;
    ScanRaw(toks);
    if forall t :: t in toks ==> !Skips(t) {
      NothingToSkip(toks);
    }
    hide ScanAfter, OpenAfter;
    return p.errors;
  }
}
