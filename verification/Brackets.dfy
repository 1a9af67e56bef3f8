/**
 Brackets in a token stream, as they stand and as the parser reads them: it skips the operand in
 parentheses after an attribute or `typeof` unread.
 */
module Brackets {
  import opened Wrappers
  import opened Pratt
  import opened Syntax
  import opened FirstTokens

  function Opener(t: Tok): Option<Token> {
    if t == Plain(RParen) then Some(LParen)
    else if t == Plain(RBracket) then Some(LBracket)
    else if t == Plain(RBrace) then Some(LBrace)
    else None
  }

  predicate Opens(t: Tok) {
    t == Plain(LParen) || t == Plain(LBracket) || t == Plain(LBrace)
  }

  predicate IsBracket(t: Tok) {
    Opens(t) || Opener(t).Some?
  }

  /** The brackets open after one more token; `None` once a bracket has been closed by the wrong one. */
  function Push(open: Option<seq<Token>>, t: Tok): Option<seq<Token>> {
    if open.None? then None
    else if Opens(t) then Some([t.t] + open.value)
    else if Opener(t).None? then open
    else if open.value != [] && open.value[0] == Opener(t).value then Some(open.value[1..])
    else None
  }

  /** The brackets open after `toks`, innermost first, when every token counts. */
  function OpenAfter(toks: seq<Tok>): Option<seq<Token>> {
    if toks == [] then Some([]) else Push(OpenAfter(toks[..|toks| - 1]), toks[|toks| - 1])
  }

  /** Tokens whose parenthesised operands are skipped unread. */
  predicate Skips(t: Tok) {
    IsAttribute(t) || t == Key(Typeof)
  }

  /**
   Reading a stream as the parser does: the operand in parentheses after an attribute or `typeof` is
   skipped, by its parentheses alone. `open` are the brackets open outside of operands, `inner` those
   open in the operand, and `clean` says that every operand so far was well-bracketed in itself.
   */
  datatype Scan = Scan(open: Option<seq<Token>>, skip: Skipping, clean: bool)

  datatype Skipping = Reading | Keyword | Operand(depth: int, inner: Option<seq<Token>>)

  function Next(s: Scan, t: Tok): Scan {
    match s.skip
    case Operand(d, inner) =>
      var d1 := if t == Plain(LParen) then d + 1 else if t == Plain(RParen) then d - 1 else d;
      if d1 == 0 then Scan(s.open, Reading, s.clean && Push(inner, t) == Some([]))
      else s.(skip := Operand(d1, Push(inner, t)))
    case _ =>
      if s.skip.Keyword? && t == Plain(LParen) then s.(skip := Operand(1, Some([LParen])))
      else if Skips(t) then s.(skip := Keyword)
      else s.(open := Push(s.open, t), skip := Reading)
  }

  function ScanAfter(toks: seq<Tok>): Scan {
    if toks == [] then Scan(Some([]), Reading, true) else Next(ScanAfter(toks[..|toks| - 1]), toks[|toks| - 1])
  }

  /** A bracket and the one that matches it leave the open brackets as they were. */
  lemma Closes(open: Option<seq<Token>>, a: Tok, b: Tok)
    requires Opens(a) && Opener(b) == Some(a.t)
    ensures Push(Push(open, a), b) == open
  {
    if open.Some? {
      assert ([a.t] + open.value)[1..] == open.value;
    }
  }

  // ----- the raw stream -----

  function Parens(open: seq<Token>): nat {
    if open == [] then 0 else (if open[0] == LParen then 1 else 0) + Parens(open[1..])
  }

  /** In an operand, `inner` ends in the parenthesis that opened it and has as many as the depth counts. */
  predicate OperandOk(s: Scan) {
    s.skip.Operand? ==>
      && s.skip.depth >= 1
      && (s.skip.inner.Some? ==>
            var xs := s.skip.inner.value; xs != [] && xs[|xs| - 1] == LParen && Parens(xs) == s.skip.depth)
  }

  /** The brackets open when every token counts, from what a scan knows. */
  function Raw(s: Scan): Option<seq<Token>> {
    if !s.clean || s.open.None? then None
    else if !s.skip.Operand? then s.open
    else if s.skip.inner.None? then None
    else Some(s.skip.inner.value + s.open.value)
  }

  lemma {:induction false} OnlyOpener(xs: seq<Token>)
    requires xs != [] && xs[|xs| - 1] == LParen && Parens(xs) == 1 && xs[0] == LParen
    ensures xs == [LParen]
  {
    if |xs| > 1 {
      HasParen(xs[1..]);
    }
  }

  lemma {:induction false} HasParen(xs: seq<Token>)
    requires xs != [] && xs[|xs| - 1] == LParen
    ensures Parens(xs) >= 1
  {
    if |xs| > 1 {
      HasParen(xs[1..]);
    }
  }

  /** A token in an operand acts on the brackets of the operand as on all of them. */
  lemma PushInner(xs: seq<Token>, rest: seq<Token>, t: Tok)
    requires xs != [] && xs[|xs| - 1] == LParen
    ensures Push(Some(xs + rest), t) ==
            if Push(Some(xs), t).Some? then Some(Push(Some(xs), t).value + rest) else None
  {
    assert (xs + rest)[0] == xs[0] && (xs + rest)[1..] == xs[1..] + rest;
    if Opens(t) {
      assert [t.t] + (xs + rest) == ([t.t] + xs) + rest;
    }
  }

  lemma StepOperand(s: Scan, t: Tok)
    requires OperandOk(s) && s.skip.Operand?
    ensures OperandOk(Next(s, t)) && Raw(Next(s, t)) == Push(Raw(s), t)
  {
    if s.skip.inner.Some? {
      var xs, d := s.skip.inner.value, s.skip.depth;
      if s.open.Some? {
        PushInner(xs, s.open.value, t);
      }
      StepInner(xs, t);
      if d == 1 && t == Plain(RParen) && xs[0] == LParen {
        OnlyOpener(xs);
      }
    }
  }

  /** How the brackets of an operand change, and their parentheses with them. */
  lemma StepInner(xs: seq<Token>, t: Tok)
    requires xs != [] && xs[|xs| - 1] == LParen
    ensures var ys := Push(Some(xs), t);
            ys.Some? ==>
              && Parens(ys.value) == Parens(xs) + (if t == Plain(LParen) then 1 else 0) - (if t == Plain(RParen) then 1 else 0)
              && (ys.value != [] ==> ys.value[|ys.value| - 1] == LParen)
              && (ys.value == [] ==> t == Plain(RParen) && xs == [LParen])
  {
    if Opens(t) {
      assert ([t.t] + xs)[1..] == xs;
    } else if Opener(t).Some? && xs[0] == Opener(t).value {
      assert Parens(xs) == (if xs[0] == LParen then 1 else 0) + Parens(xs[1..]);
      assert |xs| == 1 ==> xs == [LParen];
    }
  }

  lemma StepReading(s: Scan, t: Tok)
    requires !s.skip.Operand?
    ensures OperandOk(Next(s, t)) && Raw(Next(s, t)) == Push(Raw(s), t)
  {
    if s.skip.Keyword? && t == Plain(LParen) {
      assert [LParen][1..] == [];
    }
  }

  /** A scan knows all about the raw stream. */
  lemma {:induction false} ScanRaw(toks: seq<Tok>)
    ensures OperandOk(ScanAfter(toks)) && OpenAfter(toks) == Raw(ScanAfter(toks))
  {
    if toks != [] {
      var n := |toks| - 1;
      ScanRaw(toks[..n]);
      if ScanAfter(toks[..n]).skip.Operand? {
        StepOperand(ScanAfter(toks[..n]), toks[n]);
      } else {
        StepReading(ScanAfter(toks[..n]), toks[n]);
      }
    }
  }

  /** All operands are complete and well-bracketed in themselves. */
  predicate OperandsClosed(toks: seq<Tok>) {
    ScanAfter(toks).clean && !ScanAfter(toks).skip.Operand?
  }

  lemma {:induction false} NothingToSkip(toks: seq<Tok>)
    requires forall t :: t in toks ==> !Skips(t)
    ensures OperandsClosed(toks) && ScanAfter(toks).skip == Reading
  {
    if toks != [] {
      NothingToSkip(toks[..|toks| - 1]);
    }
  }

  /** `int x __attribute__([);` reads as well-bracketed, its operand is not, and neither is the raw stream. */
  lemma AttributeHidesBrackets()
    ensures var toks := [Key(KwInt), Plain(Ident("x")), Key(Attribute), Plain(LParen), Plain(LBracket),
                         Plain(RParen), Plain(Semicolon)];
            ScanAfter(toks).open == Some([]) && !OperandsClosed(toks) && OpenAfter(toks) == None
  {
    hide ScanAfter, OpenAfter, Next;
    var t1 := [Key(KwInt)];
    var t2, t3 := t1 + [Plain(Ident("x"))], t1 + [Plain(Ident("x"))] + [Key(Attribute)];
    var t4 := t3 + [Plain(LParen)];
    var t5 := t4 + [Plain(LBracket)];
    var t6 := t5 + [Plain(RParen)];
    OneMoreToken([], Key(KwInt));
    OneMoreToken(t1, Plain(Ident("x")));
    OneMoreToken(t2, Key(Attribute));
    OneMoreToken(t3, Plain(LParen));
    OneMoreToken(t4, Plain(LBracket));
    OneMoreToken(t5, Plain(RParen));
    OneMoreToken(t6, Plain(Semicolon));
    ExampleScans();
    ScanRaw(t6 + [Plain(Semicolon)]);
    assert [] + [Key(KwInt)] == t1;
    assert t6 + [Plain(Semicolon)] == [Key(KwInt), Plain(Ident("x")), Key(Attribute), Plain(LParen), Plain(LBracket),
                                       Plain(RParen), Plain(Semicolon)];
  }

  lemma ExampleScans()
    ensures var s0 := Scan(Some([]), Reading, true);
            var s1 := Next(Next(s0, Key(KwInt)), Plain(Ident("x")));
            var s2 := Next(Next(s1, Key(Attribute)), Plain(LParen));
            ScanAfter([]) == s0 && s1 == s0 && s2 == Scan(Some([]), Operand(1, Some([LParen])), true)
            && Next(Next(Next(s2, Plain(LBracket)), Plain(RParen)), Plain(Semicolon)) == Scan(Some([]), Reading, false)
  {
    OperandScans();
  }

  lemma OperandScans()
    ensures var s := Next(Next(Scan(Some([]), Operand(1, Some([LParen])), true), Plain(LBracket)), Plain(RParen));
            Next(s, Plain(Semicolon)) == Scan(Some([]), Reading, false)
  {
  }

  lemma OneMoreToken(ts: seq<Tok>, t: Tok)
    ensures ScanAfter(ts + [t]) == Next(ScanAfter(ts), t)
  {
    assert (ts + [t])[..|ts|] == ts;
  }
}
