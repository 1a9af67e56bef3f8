/** Facts about the code of a whole function: labels, jumps, declarations and temporaries. */
module Functions {
  import opened Wrappers
  import opened Ast
  import opened Ir
  import opened IrGen
  import opened Semantics
  import opened Switches
  import opened Simulation
  import opened Labels

  ghost predicate Distinct<T>(xs: seq<T>) {
    forall i, j :: 0 <= i < j < |xs| ==> xs[i] != xs[j]
  }

  /** The declarations of a statement, in the order they are lowered. */
  function DeclIds(s: Stmt): seq<nat> {
    match s
    case Then(a, b) => DeclIds(a) + DeclIds(b)
    case Compound(b) => DeclIds(b)
    case Decl(id, _, _) => [id]
    case If(_, a, b) => DeclIds(a) + if b.Some? then DeclIds(b.value) else []
    case While(_, b) => DeclIds(b)
    case DoWhile(b, _) => DeclIds(b)
    case For(start, _, _, b) => DeclIds(start) + DeclIds(b)
    case Switch(_, b) => DeclIds(b)
    case Case(_, _, b) => DeclIds(b)
    case Default(_, b) => DeclIds(b)
    case Labelled(_, b) => DeclIds(b)
    case _ => []
  }

  /**
   The function bodies that C gives a meaning and whose case constants the compiler evaluates
   rightly: no case outside a switch, proper switches and loops, distinct labels; and declarations
   are distinct nodes. Semantic analysis checks the first of these (`Sema.CheckFunc`); the
   parser builds proper loops and distinct nodes; nothing checks for repeated labels or case values.
   */
  ghost predicate Valid(body: Stmt) {
    && Shaped(body) && Cases(body) == []
    && Distinct(LabelNames(body)) && Distinct(DeclIds(body))
  }

  /** What labels depend on: distinct label names and distinct nodes, whatever the case expressions are. */
  ghost predicate WellLabelled(body: Stmt) {
    Formed(body) && Distinct(LabelNames(body))
  }

  lemma ValidLabelled(body: Stmt)
    requires Valid(body)
    ensures WellLabelled(body)
  {
    ShapedFormed(body);
  }

  function FuncEnv(body: Stmt): Env {
    Env(0, 0, [], 0, CollectLabels(body, 1, []).1)
  }

  function FuncStart(body: Stmt): Out {
    Out([], 1, CollectLabels(body, 1, []).0, [])
  }

  lemma FuncIs(body: Stmt)
    ensures GenFunc(body) == GenStmt(FuncEnv(body), [], FuncStart(body), body).0
    ensures FuncEnv(body).gotos == NameEntries(LabelNames(body), 1)
    ensures FuncStart(body).nl == 1 + |LabelNames(body)|
  {
    CollectLabelsIs(body, 1, []);
  }

  // ----- each label at most once -----

  lemma {:induction false} LookupEntry(xs: seq<string>, nl: nat, i: nat)
    requires Distinct(xs) && i < |xs|
    ensures Lookup(NameEntries(xs, nl), xs[i]) == Some(nl + i)
  {
    var es := NameEntries(xs, nl);
    var k := |xs| - 1 - i;
    assert es[|xs| - 1 - i] == (xs[i], nl + i);
    forall j | 0 <= j < k
      ensures es[j].0 != xs[i]
    {
      var i2 := |xs| - 1 - j;
      assert es[|xs| - 1 - i2] == (xs[i2], nl + i2);
    }
    LookupAt(es, k);
  }

  lemma {:induction false} LookupAt(es: seq<(string, nat)>, k: nat)
    requires k < |es| && forall j :: 0 <= j < k ==> es[j].0 != es[k].0
    ensures Lookup(es, es[k].0) == Some(es[k].1)
  {
    if k > 0 {
      LookupAt(es[1..], k - 1);
    }
  }

  lemma {:induction false} LookupNone(es: seq<(string, nat)>, x: string)
    requires forall j :: 0 <= j < |es| ==> es[j].0 != x
    ensures Lookup(es, x).None?
  {
    if es != [] {
      LookupNone(es[1..], x);
    }
  }

  /** `collect_labels` finds exactly the labels of the body. */
  lemma CollectsLabels(body: Stmt, x: string)
    requires Distinct(LabelNames(body))
    ensures x in LabelNames(body) <==> Lookup(FuncEnv(body).gotos, x).Some?
  {
    FuncIs(body);
    var xs := LabelNames(body);
    var es := NameEntries(xs, 1);
    if x in xs {
      var i :| 0 <= i < |xs| && xs[i] == x;
      LookupEntry(xs, 1, i);
    } else {
      forall j | 0 <= j < |es|
        ensures es[j].0 != x
      {
        assert es[|xs| - 1 - (|xs| - 1 - j)] == (xs[|xs| - 1 - j], 1 + (|xs| - 1 - j));
      }
      LookupNone(es, x);
    }
  }

  lemma {:induction false} NameLabels(xs: seq<string>, nl: nat, gotos: seq<(string, nat)>, l: nat)
    requires forall i :: 0 <= i < |xs| ==> Lookup(gotos, xs[i]) == Some(nl + i)
    ensures NameUses(gotos, xs, l) == One(nl <= l < nl + |xs|)
  {
    if xs != [] {
      forall i | 0 <= i < |xs[1..]|
        ensures Lookup(gotos, xs[1..][i]) == Some(nl + 1 + i)
      {
        assert xs[1..][i] == xs[i + 1];
      }
      NameLabels(xs[1..], nl + 1, gotos, l);
    }
  }

  lemma FuncTables(body: Stmt)
    requires Valid(body)
    ensures Tables(FuncEnv(body), body)
  {
    forall x | x in LabelNames(body)
      ensures Lookup(FuncEnv(body).gotos, x).Some?
    {
      CollectsLabels(body, x);
    }
  }

  lemma {:induction false} NoCaseUses(ns: seq<CaseNode>, l: nat)
    ensures CaseUses([], ns, l) == 0
  {
    if ns != [] {
      NoCaseUses(ns[1..], l);
    }
  }

  lemma LabelOnce(body: Stmt, l: nat)
    requires WellLabelled(body)
    ensures Count(GenFunc(body).code, l) <= 1
  {
    hide GenFunc, GenStmt, Formed, NameUses, CaseUses, NameEntries, Distinct, CollectLabels;
    FuncIs(body);
    CountStmt(FuncEnv(body), [], FuncStart(body), body, l);
    NoCaseUses(Cases(body), l);
    NamesOnce(LabelNames(body), 1, l);
    CountNothing(l);
  }

  lemma CountNothing(l: nat)
    ensures Count([], l) == 0
  {
  }

  /** A table numbers its names one after the other. */
  lemma NamesOnce(xs: seq<string>, nl: nat, l: nat)
    requires Distinct(xs)
    ensures NameUses(NameEntries(xs, nl), xs, l) == One(nl <= l < nl + |xs|)
  {
    hide NameUses, Lookup, NameEntries;
    forall i | 0 <= i < |xs|
      ensures Lookup(NameEntries(xs, nl), xs[i]) == Some(nl + i)
    {
      LookupEntry(xs, nl, i);
    }
    NameLabels(xs, nl, NameEntries(xs, nl), l);
  }

  /** No label is defined twice in the code of a function. */
  lemma LabelsUnique(body: Stmt)
    requires WellLabelled(body)
    ensures forall l :: Count(GenFunc(body).code, l) <= 1
    ensures UniqueLabels(GenFunc(body).code)
  {
    hide GenFunc, WellLabelled, Count;
    var code := GenFunc(body).code;
    forall l: nat
      ensures Count(code, l) <= 1
    {
      LabelOnce(body, l);
    }
    forall i, j | 0 <= i < |code| && 0 <= j < |code| && code[i].Label? && code[i] == code[j]
      ensures i == j
    {
      if i < j {
        CountAtMostOnce(code, code[i].l, i, j);
      } else if j < i {
        CountAtMostOnce(code, code[i].l, j, i);
      }
    }
  }

  // ----- every jump lands -----

  predicate JumpsTo(i: Instr, l: nat) {
    (i.Jmp? || i.Jz? || i.Jnz?) && i.l == l
  }

  predicate HasJump(code: seq<Instr>, l: nat) {
    exists i :: 0 <= i < |code| && JumpsTo(code[i], l)
  }

  /**
   Jumps to `l` emitted between `o1` and `o2` are answered: `l` is defined by then, or (`ok`)
   it is a label of the surrounding code.
   */
  predicate Answered(o1: Out, o2: Out, l: nat, ok: bool) {
    && (Emitted(o1.code, l) ==> Emitted(o2.code, l))
    && (HasJump(o2.code, l) ==> HasJump(o1.code, l) || Emitted(o2.code, l) || ok)
  }

  lemma AnsweredEmit(o1: Out, o2: Out, i: Instr, l: nat, ok: bool)
    requires Answered(o1, o2, l, ok) && (JumpsTo(i, l) ==> ok)
    ensures Answered(o1, Emit(o2, i), l, ok)
    ensures i == Label(l) ==> Emitted(Emit(o2, i).code, l)
    ensures Emitted(o2.code, l) ==> Emitted(Emit(o2, i).code, l)
  {
    var code := Emit(o2, i).code;
    assert forall j :: 0 <= j < |o2.code| ==> code[j] == o2.code[j];
    assert code[|o2.code|] == i;
    if HasJump(code, l) && !JumpsTo(i, l) {
      var j :| 0 <= j < |code| && JumpsTo(code[j], l);
      assert JumpsTo(o2.code[j], l);
    }
  }

  lemma AnsweredThen(o1: Out, o2: Out, o3: Out, l: nat, ok: bool)
    requires Answered(o1, o2, l, ok) && Answered(o2, o3, l, ok)
    ensures Answered(o1, o3, l, ok)
  {
  }

  lemma AnsweredSame(o1: Out, o2: Out, l: nat, ok: bool)
    requires o1.code == o2.code
    ensures Answered(o1, o2, l, ok)
  {
  }

  /** Labels that the code defines itself need not be known from outside. */
  lemma AnsweredOwn(o1: Out, o2: Out, l: nat, ok: bool, own: bool)
    requires Answered(o1, o2, l, ok || own) && (own ==> Emitted(o2.code, l))
    ensures Answered(o1, o2, l, ok)
  {
  }

  lemma {:induction false} AnsweredExpr(gs: Scope, o: Out, e: Expr, l: nat, ok: bool)
    requires ScopeBelow(gs, o.nt)
    ensures Answered(o, GenExpr(gs, o, e).0, l, ok)
    decreases e, 1
  {
    hide Answered, Extends, HasJump, Emitted;
    AnsweredSame(o, o, l, ok);
    match e
    case IntLit(_) =>
    case Ident(x) => AnsweredPlain(o, o, NewTemp(o), Load(o.nt, Address(gs, x), 4, true), l, ok);
    case Unary(op, a) =>
      var (o1, v) := GenExpr(gs, o, a);
      AnsweredExpr(gs, o, a, l, ok);
      AnsweredSame(o1, NewTemp(o1), l, ok);
      AnsweredThen(o, o1, NewTemp(o1), l, ok);
      AnsweredPlain(o, o1, NewTemp(o1), Un(Neg, o1.nt, v), l, ok);
      AnsweredPlain(o, o1, NewTemp(o1), Un(Not, o1.nt, v), l, ok);
      AnsweredPlain(o, o1, NewTemp(o1), Bin(Eq, o1.nt, v, Imm(0), false), l, ok);
    case PreIncDec(inc, x) => AnsweredStep(gs, o, x, inc, false, l, ok);
    case PostIncDec(inc, x) => AnsweredStep(gs, o, x, inc, true, l, ok);
    case Binary(op, a, b) =>
      var (o1, lv) := GenExpr(gs, o, a);
      var (o2, rv) := GenExpr(gs, o1, b);
      AnsweredExpr(gs, o, a, l, ok);
      AnsweredExpr(gs, o1, b, l, ok);
      AnsweredThen(o, o1, o2, l, ok);
      AnsweredPlain(o, o2, NewTemp(o2), Bin(op, o2.nt, lv, rv, false), l, ok);
    case LogAnd(_, _) => AnsweredLogical(gs, o, e, l, ok);
    case LogOr(_, _) => AnsweredLogical(gs, o, e, l, ok);
    case Assign(x, a) =>
      var (o1, v) := GenExpr(gs, o, a);
      AnsweredExpr(gs, o, a, l, ok);
      AnsweredPlain(o, o1, o1, Store(Address(gs, x), v, 4), l, ok);
    case CompoundAssign(op, x, a) =>
      var o1 := GenLoad(o, Address(gs, x));
      var (o2, rv) := GenExpr(gs, o1, a);
      var o3 := Emit(NewTemp(o2), Bin(op, o2.nt, Temp(o.nt), rv, false));
      AnsweredPlain(o, o, NewTemp(o), Load(o.nt, Address(gs, x), 4, true), l, ok);
      AnsweredExpr(gs, o1, a, l, ok);
      AnsweredThen(o, o1, o2, l, ok);
      AnsweredPlain(o, o2, NewTemp(o2), Bin(op, o2.nt, Temp(o.nt), rv, false), l, ok);
      AnsweredPlain(o, o3, o3, Store(Address(gs, x), Temp(o2.nt), 4), l, ok);
    case Ternary(_, _, _) => AnsweredTernary(gs, o, e, l, ok);
    case Comma(a, b) =>
      var o1 := GenExpr(gs, o, a).0;
      AnsweredExpr(gs, o, a, l, ok);
      AnsweredExpr(gs, o1, b, l, ok);
      AnsweredThen(o, o1, GenExpr(gs, o1, b).0, l, ok);
  }

  /** An instruction that does not jump; `o3` may have taken a temporary. */
  lemma AnsweredPlain(o1: Out, o2: Out, o3: Out, i: Instr, l: nat, ok: bool)
    requires Answered(o1, o2, l, ok) && o3.code == o2.code && !JumpsTo(i, l)
    ensures Answered(o1, Emit(o3, i), l, ok)
  {
    AnsweredEmit(o1, o3, i, l, ok);
  }

  lemma AnsweredStep(gs: Scope, o: Out, x: string, inc: bool, post: bool, l: nat, ok: bool)
    requires ScopeBelow(gs, o.nt)
    ensures Answered(o, GenStep(gs, o, x, inc, post).0, l, ok)
  {
    hide Answered, Extends, HasJump, Emitted;
    var addr := Address(gs, x);
    var o1 := GenLoad(o, addr);
    var i := Bin(if inc then Add else Sub, o1.nt, Temp(o.nt), Imm(1), false);
    var o2 := Emit(NewTemp(o1), i);
    AnsweredSame(o, o, l, ok);
    AnsweredPlain(o, o, NewTemp(o), Load(o.nt, addr, 4, true), l, ok);
    AnsweredPlain(o, o1, NewTemp(o1), i, l, ok);
    AnsweredPlain(o, o2, o2, Store(addr, Temp(o1.nt), 4), l, ok);
  }

  lemma AnsweredTail(o1: Out, o2: Out, fin: seq<Instr>, l: nat, ok: bool)
    requires Answered(o1, o2, l, ok)
    requires forall i :: 0 <= i < |fin| && JumpsTo(fin[i], l) ==> ok
    ensures Answered(o1, o2.(code := o2.code + fin), l, ok)
    ensures forall i :: 0 <= i < |fin| && fin[i] == Label(l) ==> Emitted(o2.code + fin, l)
  {
    var code := o2.code + fin;
    if HasJump(code, l) && !ok {
      var j :| 0 <= j < |code| && JumpsTo(code[j], l);
      assert j < |o2.code| ==> JumpsTo(o2.code[j], l);
    }
    forall i | 0 <= i < |fin| && fin[i] == Label(l)
      ensures Emitted(code, l)
    {
      assert code[|o2.code| + i] == Label(l);
    }
  }

  lemma {:induction false} AnsweredLogical(gs: Scope, o: Out, e: Expr, l: nat, ok: bool)
    requires ScopeBelow(gs, o.nt) && (e.LogAnd? || e.LogOr?)
    ensures Answered(o, GenExpr(gs, o, e).0, l, ok)
    decreases e, 0
  {
    hide Answered, Extends, HasJump, Emitted;
    var o0 := NewLabels(NewTemp(o), 3);
    var (o1, lv) := GenExpr(gs, o0, e.left);
    var i := if e.LogAnd? then Jz(lv, o.nl + 1) else Jnz(lv, o.nl + 2);
    var o2 := Emit(o1, i);
    var (o3, rv) := GenExpr(gs, o2, e.right);
    var fin := if e.LogAnd? then
        [Jnz(rv, o.nl + 2), Jmp(o.nl + 1), Label(o.nl + 1), Copy(o.nt, Imm(0)),
         Jmp(o.nl), Label(o.nl + 2), Copy(o.nt, Imm(1)), Label(o.nl)]
      else [Jnz(rv, o.nl + 2), Copy(o.nt, Imm(0)), Jmp(o.nl), Label(o.nl + 2), Copy(o.nt, Imm(1)), Label(o.nl)];
    var own := l == o.nl || l == o.nl + 2 || (e.LogAnd? && l == o.nl + 1);
    var k := ok || own;
    AnsweredSame(o, o0, l, k);
    AnsweredExpr(gs, o0, e.left, l, k);
    AnsweredThen(o, o0, o1, l, k);
    AnsweredEmit(o, o1, i, l, k);
    AnsweredExpr(gs, o2, e.right, l, k);
    AnsweredThen(o, o2, o3, l, k);
    AnsweredTail(o, o3, fin, l, k);
    if own {
      assert fin[if l == o.nl then |fin| - 1 else if l == o.nl + 2 then |fin| - 3 else 2] == Label(l);
    }
    AnsweredOwn(o, o3.(code := o3.code + fin), l, ok, own);
  }

  lemma {:induction false} AnsweredTernary(gs: Scope, o: Out, e: Expr, l: nat, ok: bool)
    requires ScopeBelow(gs, o.nt) && e.Ternary?
    ensures Answered(o, GenExpr(gs, o, e).0, l, ok)
    decreases e, 0
  {
    hide Answered, Extends, HasJump, Emitted;
    var o0 := NewTemp(NewLabels(o, 3));
    var (o1, cv) := GenExpr(gs, o0, e.cond);
    var o2 := Emit(Emit(o1, Jz(cv, o.nl + 1)), Label(o.nl));
    var (o3, av) := GenExpr(gs, o2, e.thn);
    var own := l == o.nl + 1 || l == o.nl + 2;
    var k := ok || own;
    AnsweredSame(o, o0, l, k);
    AnsweredExpr(gs, o0, e.cond, l, k);
    AnsweredThen(o, o0, o1, l, k);
    AnsweredEmit(o, o1, Jz(cv, o.nl + 1), l, k);
    AnsweredEmit(o, Emit(o1, Jz(cv, o.nl + 1)), Label(o.nl), l, k);
    AnsweredExpr(gs, o2, e.thn, l, k);
    AnsweredThen(o, o2, o3, l, k);
    AnsweredArms(gs, o, o3, av, e.els, l, k);
    AnsweredOwn(o, GenExpr(gs, o, e).0, l, ok, own);
  }

  /** From the end of the first arm of `?:` to its end; the labels are those handed out at `o`. */
  lemma {:induction false} AnsweredArms(gs: Scope, o: Out, o3: Out, av: Operand, els: Expr, l: nat, k: bool)
    requires ScopeBelow(gs, o3.nt) && Answered(o, o3, l, k) && (l == o.nl + 1 || l == o.nl + 2 ==> k)
    ensures var o4 := Emit(Emit(Emit(o3, Copy(o.nt, av)), Jmp(o.nl + 2)), Label(o.nl + 1));
            var (o5, bv) := GenExpr(gs, o4, els);
            var o6 := Emit(Emit(o5, Copy(o.nt, bv)), Label(o.nl + 2));
            Answered(o, o6, l, k) && (l == o.nl + 1 || l == o.nl + 2 ==> Emitted(o6.code, l))
    decreases els, 2
  {
    hide Answered, Extends, HasJump, Emitted;
    var ob := Emit(o3, Copy(o.nt, av));
    var oc := Emit(ob, Jmp(o.nl + 2));
    var o4 := Emit(oc, Label(o.nl + 1));
    var (o5, bv) := GenExpr(gs, o4, els);
    var od := Emit(o5, Copy(o.nt, bv));
    AnsweredEmit(o, o3, Copy(o.nt, av), l, k);
    AnsweredEmit(o, ob, Jmp(o.nl + 2), l, k);
    AnsweredEmit(o, oc, Label(o.nl + 1), l, k);
    AnsweredExpr(gs, o4, els, l, k);
    StaysEmitted(o4, o5, l, k);
    AnsweredThen(o, o4, o5, l, k);
    AnsweredEmit(o, o5, Copy(o.nt, bv), l, k);
    AnsweredEmit(o, od, Label(o.nl + 2), l, k);
  }

  lemma StaysEmitted(o1: Out, o2: Out, l: nat, ok: bool)
    requires Answered(o1, o2, l, ok)
    ensures Emitted(o1.code, l) ==> Emitted(o2.code, l)
  {
  }

  lemma AnsweredTest(gs: Scope, o: Out, test: Option<Expr>, exit: nat, l: nat, ok: bool)
    requires ScopeBelow(gs, o.nt) && (l == exit ==> ok)
    ensures Answered(o, GenTest(gs, o, test, exit), l, ok)
  {
    hide Answered, Extends, HasJump, Emitted;
    AnsweredSame(o, o, l, ok);
    if test.Some? {
      var (o1, v) := GenExpr(gs, o, test.value);
      AnsweredExpr(gs, o, test.value, l, ok);
      AnsweredEmit(o, o1, Jz(v, exit), l, ok);
    }
  }

  predicate IsTargetOf(cases: seq<CaseEntry>, l: nat) {
    exists i :: 0 <= i < |cases| && cases[i].target == l
  }

  lemma {:induction false} AnsweredTests(o: Out, sv: nat, cases: seq<CaseEntry>, l: nat, ok: bool)
    requires IsTargetOf(cases, l) ==> ok
    ensures Answered(o, EmitTests(o, sv, cases), l, ok)
    decreases cases
  {
    hide Answered, Extends, HasJump, Emitted;
    AnsweredSame(o, o, l, ok);
    if cases != [] {
      assert IsTargetOf(cases[1..], l) ==> IsTargetOf(cases, l) by {
        if IsTargetOf(cases[1..], l) {
          var i :| 0 <= i < |cases[1..]| && cases[1..][i].target == l;
          assert cases[i + 1].target == l;
        }
      }
      if cases[0].isDefault {
        AnsweredTests(o, sv, cases[1..], l, ok);
      } else {
        var i := Bin(Eq, o.nt, Temp(sv), Imm(cases[0].val), false);
        var o1 := Emit(NewTemp(o), i);
        var o2 := Emit(o1, Jnz(Temp(o.nt), cases[0].target));
        AnsweredPlain(o, o, NewTemp(o), i, l, ok);
        assert cases[0].target == l ==> IsTargetOf(cases, l);
        AnsweredEmit(o, o1, Jnz(Temp(o.nt), cases[0].target), l, ok);
        AnsweredTests(o2, sv, cases[1..], l, ok);
        AnsweredThen(o, o2, EmitTests(o2, sv, cases[1..]), l, ok);
      }
    }
  }

  lemma AnsweredDispatch(gs: Scope, o: Out, e: Expr, c: Collected, end: nat, l: nat, ok: bool)
    requires ScopeBelow(gs, o.nt)
    requires IsTargetOf(c.cases, l) || l == (if c.dflt != 0 then c.dflt else end) ==> ok
    ensures Answered(o, GenDispatch(gs, o, e, c, end), l, ok)
  {
    hide Answered, Extends, HasJump, Emitted, IsTargetOf;
    var (o1, v) := GenExpr(gs, o, e);
    var o2 := Emit(NewTemp(o1), Copy(o1.nt, v));
    var o3 := EmitTests(o2, o1.nt, c.cases);
    AnsweredExpr(gs, o, e, l, ok);
    AnsweredPlain(o, o1, NewTemp(o1), Copy(o1.nt, v), l, ok);
    AnsweredTests(o2, o1.nt, c.cases, l, ok);
    AnsweredThen(o, o2, o3, l, ok);
    AnsweredEmit(o, o3, Jmp(if c.dflt != 0 then c.dflt else end), l, ok);
  }

  /** The labels of the surrounding statements that `s` may jump to. */
  predicate Outer(env: Env, l: nat) {
    (l != 0 && (l == env.brk || l == env.cont)) || (exists i :: 0 <= i < |env.gotos| && env.gotos[i].1 == l)
  }

  /** Inside a loop or switch the labels from outside are those from outside it, and its own. */
  lemma OuterWith(env: Env, brk: nat, cont: nat, cases: seq<CaseEntry>, dflt: nat, l: nat)
    requires Outer(Env(brk, cont, cases, dflt, env.gotos), l)
    ensures Outer(env, l) || l == brk || l == cont
  {
  }

  lemma {:induction false} AnsweredStmt(env: Env, gs: Scope, o: Out, s: Stmt, l: nat, ok: bool)
    requires ScopeBelow(gs, o.nt) && Formed(s) && (Outer(env, l) ==> ok)
    ensures Answered(o, GenStmt(env, gs, o, s).0, l, ok)
    decreases s, 2
  {
    hide Answered, Extends, HasJump, Emitted, DistinctNodes, Outer;
    AnsweredSame(o, o, l, ok);
    match s
    case End =>
    case Then(a, b) =>
      var (o1, gs1) := GenStmt(env, gs, o, a);
      AnsweredStmt(env, gs, o, a, l, ok);
      AnsweredStmt(env, gs1, o1, b, l, ok);
      AnsweredThen(o, o1, GenStmt(env, gs1, o1, b).0, l, ok);
    case Compound(b) => AnsweredStmt(env, gs, o, b, l, ok);
    case ExprStmt(e) => AnsweredExpr(gs, o, e, l, ok);
    case Decl(_, _, _) => AnsweredDecl(gs, o, s, l, ok);
    case If(_, _, _) => AnsweredIf(env, gs, o, s, l, ok);
    case While(_, _) => AnsweredWhile(env, gs, o, s, l, ok);
    case DoWhile(_, _) => AnsweredDo(env, gs, o, s, l, ok);
    case For(_, _, _, _) => AnsweredFor(env, gs, o, s, l, ok);
    case Return(e) =>
      AnsweredEmit(o, o, Ret(None), l, ok);
      if e.Some? {
        var (o1, v) := GenExpr(gs, o, e.value);
        AnsweredExpr(gs, o, e.value, l, ok);
        AnsweredEmit(o, o1, Ret(Some(v)), l, ok);
      }
    case Break => AnsweredExit(env, o, s, l, ok);
    case Continue => AnsweredExit(env, o, s, l, ok);
    case Goto(_) => AnsweredExit(env, o, s, l, ok);
    case Switch(_, _) => AnsweredSwitch(env, gs, o, s, l, ok);
    case Case(id, _, b) => AnsweredLabelled(env, gs, o, FindCase(env.cases, id, false), b, l, ok);
    case Default(id, b) => AnsweredLabelled(env, gs, o, FindCase(env.cases, id, true), b, l, ok);
    case Labelled(x, b) => AnsweredLabelled(env, gs, o, Lookup(env.gotos, x), b, l, ok);
  }

  lemma AnsweredExit(env: Env, o: Out, s: Stmt, l: nat, ok: bool)
    requires (s.Break? || s.Continue? || s.Goto?) && (Outer(env, l) ==> ok)
    ensures Answered(o, GenStmt(env, [], o, s).0, l, ok)
  {
    AnsweredSame(o, o, l, ok);
    var to := match s
      case Break => if env.brk != 0 then Some(env.brk) else None
      case Continue => if env.cont != 0 then Some(env.cont) else None
      case Goto(x) => Lookup(env.gotos, x);
    if to.Some? {
      if s.Goto? {
        LookupIn(env.gotos, s.name);
      }
      AnsweredEmit(o, o, Jmp(to.value), l, ok);
    }
  }

  lemma {:induction false} LookupIn(gotos: seq<(string, nat)>, x: string)
    requires Lookup(gotos, x).Some?
    ensures exists i :: 0 <= i < |gotos| && gotos[i].1 == Lookup(gotos, x).value
  {
    if gotos[0].0 != x {
      LookupIn(gotos[1..], x);
      var i :| 0 <= i < |gotos[1..]| && gotos[1..][i].1 == Lookup(gotos, x).value;
      assert gotos[i + 1].1 == Lookup(gotos, x).value;
    } else {
      assert gotos[0].1 == Lookup(gotos, x).value;
    }
  }

  lemma {:induction false} AnsweredLabelled(env: Env, gs: Scope, o: Out, at: Option<nat>, b: Stmt, l: nat, ok: bool)
    requires ScopeBelow(gs, o.nt) && Formed(b) && (Outer(env, l) ==> ok)
    ensures Answered(o, GenStmt(env, gs, EmitOptLabel(o, at), b).0, l, ok)
    decreases b, 3
  {
    hide Answered, Extends, HasJump, Emitted, Outer;
    var o1 := EmitOptLabel(o, at);
    AnsweredSame(o, o, l, ok);
    if at.Some? {
      AnsweredEmit(o, o, Label(at.value), l, ok);
    }
    AnsweredStmt(env, gs, o1, b, l, ok);
    AnsweredThen(o, o1, GenStmt(env, gs, o1, b).0, l, ok);
  }

  lemma AnsweredDecl(gs: Scope, o: Out, s: Stmt, l: nat, ok: bool)
    requires s.Decl? && ScopeBelow(gs, o.nt)
    ensures Answered(o, GenDecl(gs, o, s).0, l, ok)
  {
    hide Answered, Extends, HasJump, Emitted;
    var o1 := GenAlloca(o, s.id);
    AnsweredSame(o, o, l, ok);
    AnsweredPlain(o, o, NewTemp(o), Alloca(o.nt, 4, 4), l, ok);
    AnsweredSame(Emit(NewTemp(o), Alloca(o.nt, 4, 4)), o1, l, ok);
    AnsweredThen(o, Emit(NewTemp(o), Alloca(o.nt, 4, 4)), o1, l, ok);
    if s.init.Some? {
      var gs1 := [(s.name, o.nt)] + gs;
      var (o2, v) := GenExpr(gs1, o1, s.init.value);
      AnsweredExpr(gs1, o1, s.init.value, l, ok);
      AnsweredThen(o, o1, o2, l, ok);
      AnsweredEmit(o, o2, Store(Temp(o.nt), v, 4), l, ok);
    }
  }

  lemma {:induction false} AnsweredIf(env: Env, gs: Scope, o: Out, s: Stmt, l: nat, ok: bool)
    requires s.If? && ScopeBelow(gs, o.nt) && Formed(s) && (Outer(env, l) ==> ok)
    ensures Answered(o, GenIf(env, gs, o, s).0, l, ok)
    decreases s, 0
  {
    hide Answered, Extends, HasJump, Emitted, Outer;
    var oL := NewLabels(o, 2);
    var oT := GenTest(gs, oL, Some(s.cond), o.nl);
    var (o2, gs2) := IfThen(env, gs, o, s);
    var own := l == o.nl || (s.els.Some? && l == o.nl + 1);
    var k := ok || own;
    AnsweredSame(o, oL, l, k);
    AnsweredTest(gs, oL, Some(s.cond), o.nl, l, k);
    AnsweredThen(o, oL, oT, l, k);
    AnsweredStmt(env, gs, oT, s.thn, l, k);
    AnsweredThen(o, oT, o2, l, k);
    if s.els.None? {
      AnsweredEmit(o, o2, Label(o.nl), l, k);
      AnsweredOwn(o, Emit(o2, Label(o.nl)), l, ok, own);
    } else {
      var o3 := Emit(o2, Jmp(o.nl + 1));
      var oE, o4 := Emit(o3, Label(o.nl)), IfElse(env, gs, o, s).0;
      AnsweredEmit(o, o2, Jmp(o.nl + 1), l, k);
      AnsweredEmit(o, o3, Label(o.nl), l, k);
      AnsweredStmt(env, gs2, oE, s.els.value, l, k);
      StaysEmitted(oE, o4, l, k);
      AnsweredThen(o, oE, o4, l, k);
      AnsweredEmit(o, o4, Label(o.nl + 1), l, k);
      AnsweredOwn(o, Emit(o4, Label(o.nl + 1)), l, ok, own);
    }
  }

  lemma {:induction false} AnsweredWhile(env: Env, gs: Scope, o: Out, s: Stmt, l: nat, ok: bool)
    requires s.While? && ScopeBelow(gs, o.nt) && Formed(s) && (Outer(env, l) ==> ok)
    ensures Answered(o, GenWhile(env, gs, o, s).0, l, ok)
    decreases s, 0
  {
    hide Answered, Extends, HasJump, Emitted, Outer, DistinctNodes;
    var own := l == o.nl || l == o.nl + 2;
    var env1 := env.(brk := o.nl + 2, cont := o.nl);
    if Outer(env1, l) {
      OuterWith(env, env1.brk, env1.cont, env1.cases, env1.dflt, l);
    }
    var k, oL := ok || own, NewLabels(o, 3);
    var oP := Emit(oL, Label(o.nl));
    var oT, oS := GenTest(gs, oP, Some(s.cond), o.nl + 2), WhileStart(gs, o, s);
    var oB := WhileBody(env, gs, o, s).0;
    var oJ := Emit(oB, Jmp(o.nl));
    AnsweredSame(o, oL, l, k);
    AnsweredEmit(o, oL, Label(o.nl), l, k);
    AnsweredTest(gs, oP, Some(s.cond), o.nl + 2, l, k);
    StaysEmitted(oP, oT, l, k);
    AnsweredThen(o, oP, oT, l, k);
    AnsweredEmit(o, oT, Label(o.nl + 1), l, k);
    AnsweredStmt(env1, gs, oS, s.body, l, k);
    StaysEmitted(oS, oB, l, k);
    AnsweredThen(o, oS, oB, l, k);
    AnsweredEmit(o, oB, Jmp(o.nl), l, k);
    AnsweredEmit(o, oJ, Label(o.nl + 2), l, k);
    AnsweredOwn(o, Emit(oJ, Label(o.nl + 2)), l, ok, own);
  }

  lemma {:induction false} AnsweredDo(env: Env, gs: Scope, o: Out, s: Stmt, l: nat, ok: bool)
    requires s.DoWhile? && ScopeBelow(gs, o.nt) && Formed(s) && (Outer(env, l) ==> ok)
    ensures Answered(o, GenDoWhile(env, gs, o, s).0, l, ok)
    decreases s, 0
  {
    hide Answered, Extends, HasJump, Emitted, Outer, DistinctNodes, DoTest;
    var own := l == o.nl || l == o.nl + 1 || l == o.nl + 2;
    var env1 := env.(brk := o.nl + 2, cont := o.nl + 1);
    if Outer(env1, l) {
      OuterWith(env, env1.brk, env1.cont, env1.cases, env1.dflt, l);
    }
    var k, oL := ok || own, NewLabels(o, 3);
    var oP, oB := Emit(oL, Label(o.nl)), DoBody(env, gs, o, s).0;
    var oJ := Emit(DoTest(env, gs, o, s).0, Jnz(DoTest(env, gs, o, s).1, o.nl));
    AnsweredSame(o, oL, l, k);
    AnsweredEmit(o, oL, Label(o.nl), l, k);
    AnsweredStmt(env1, gs, oP, s.body, l, k);
    StaysEmitted(oP, oB, l, k);
    AnsweredThen(o, oP, oB, l, k);
    AnsweredDoTest(env, gs, o, s, l, k);
    AnsweredEmit(o, oJ, Label(o.nl + 2), l, k);
    AnsweredOwn(o, Emit(oJ, Label(o.nl + 2)), l, ok, own);
  }

  /** From the test label of a `do` loop to its backward jump. */
  lemma AnsweredDoTest(env: Env, gs: Scope, o: Out, s: Stmt, l: nat, k: bool)
    requires s.DoWhile? && ScopeBelow(gs, o.nt) && Answered(o, DoBody(env, gs, o, s).0, l, k)
    requires l == o.nl || l == o.nl + 1 ==> k
    requires l == o.nl ==> Emitted(DoBody(env, gs, o, s).0.code, l)
    ensures var oJ := Emit(DoTest(env, gs, o, s).0, Jnz(DoTest(env, gs, o, s).1, o.nl));
            Answered(o, oJ, l, k) && (l == o.nl || l == o.nl + 1 ==> Emitted(oJ.code, l))
  {
    hide Answered, Extends, HasJump, Emitted, DoBody;
    var (oB, gsB) := DoBody(env, gs, o, s);
    var oC := Emit(oB, Label(o.nl + 1));
    var (oT, v) := DoTest(env, gs, o, s);
    AnsweredEmit(o, oB, Label(o.nl + 1), l, k);
    AnsweredExpr(gsB, oC, s.cond, l, k);
    StaysEmitted(oC, oT, l, k);
    AnsweredThen(o, oC, oT, l, k);
    AnsweredEmit(o, oT, Jnz(v, o.nl), l, k);
  }

  lemma {:induction false} AnsweredFor(env: Env, gs: Scope, o: Out, s: Stmt, l: nat, ok: bool)
    requires s.For? && ScopeBelow(gs, o.nt) && Formed(s) && (Outer(env, l) ==> ok)
    ensures Answered(o, GenFor(env, gs, o, s).0, l, ok)
    decreases s, 1
  {
    hide Answered, Extends, HasJump, Emitted, Outer, DistinctNodes, GenForLoop;
    var own := l == o.nl || l == o.nl + 2 || l == o.nl + 3;
    var env1 := ForEnv(env, o.nl);
    if Outer(env1, l) {
      OuterWith(env, env1.brk, env1.cont, env1.cases, env1.dflt, l);
    }
    var k, oL := ok || own, NewLabels(o, 4);
    var (o1, gs1) := ForInit(env, gs, o, s);
    SimpleUses(env1, s.start, l);
    AnsweredSame(o, oL, l, k);
    AnsweredStmt(env1, gs, oL, s.start, l, k);
    AnsweredThen(o, oL, o1, l, k);
    var oE := GenForLoop(env1, gs1, o1, s, o.nl);
    AnsweredForLoop(env1, gs1, o1, s, o.nl, l, k);
    AnsweredThen(o, o1, oE, l, k);
    AnsweredOwn(o, oE, l, ok, own);
  }

  lemma {:induction false} AnsweredForLoop(env: Env, gs: Scope, o: Out, s: Stmt, nl: nat, l: nat, k: bool)
    requires s.For? && ScopeBelow(gs, o.nt) && Formed(s) && (Outer(env, l) ==> k)
    requires l == nl || l == nl + 2 || l == nl + 3 ==> k
    ensures Answered(o, GenForLoop(env, gs, o, s, nl), l, k)
    ensures l == nl || l == nl + 2 || l == nl + 3 ==> Emitted(GenForLoop(env, gs, o, s, nl).code, l)
    decreases s, 0
  {
    hide Answered, Extends, HasJump, Emitted, Outer, DistinctNodes;
    var oP := Emit(o, Label(nl));
    var oT, oS := GenTest(gs, oP, s.test, nl + 3), ForStart(gs, o, s, nl);
    var (oB, gsB) := ForBody(env, gs, o, s, nl);
    var oC, oI := Emit(oB, Label(nl + 2)), ForIncr(env, gs, o, s, nl);
    AnsweredSame(o, o, l, k);
    AnsweredEmit(o, o, Label(nl), l, k);
    AnsweredTest(gs, oP, s.test, nl + 3, l, k);
    StaysEmitted(oP, oT, l, k);
    AnsweredThen(o, oP, oT, l, k);
    AnsweredEmit(o, oT, Label(nl + 1), l, k);
    AnsweredStmt(env, gs, oS, s.body, l, k);
    StaysEmitted(oS, oB, l, k);
    AnsweredThen(o, oS, oB, l, k);
    AnsweredEmit(o, oB, Label(nl + 2), l, k);
    AnsweredSame(oC, oC, l, k);
    if s.incr.Some? {
      AnsweredExpr(gsB, oC, s.incr.value, l, k);
    }
    StaysEmitted(oC, oI, l, k);
    AnsweredThen(o, oC, oI, l, k);
    AnsweredEmit(o, oI, Jmp(nl), l, k);
    AnsweredEmit(o, Emit(oI, Jmp(nl)), Label(nl + 3), l, k);
  }

  /** Every label in the table of a switch is defined in its body. */
  lemma TableEmitted(env: Env, gs: Scope, o: Out, s: Stmt, l: nat)
    requires s.Switch? && ScopeBelow(gs, o.nt) && Formed(s)
    requires IsTargetOf(SwitchTable(o, s).cases, l) || (l == SwitchTable(o, s).dflt && l != 0)
    ensures Emitted(SwitchBody(env, gs, o, s).0.code, l)
  {
    var c, ns, nl := SwitchTable(o, s), Cases(s.body), o.nl + 1;
    CollectIs(s.body, Collected(nl, [], 0));
    assert c.cases == Entries(ns, nl);
    if IsTargetOf(c.cases, l) {
      var k :| 0 <= k < |c.cases| && c.cases[k].target == l;
      var i := |ns| - 1 - k;
      assert c.cases[|ns| - 1 - i] == EntryFor(ns[i], nl + i);
      NodeLabelEmitted(env, gs, o, s, i);
    } else {
      var i := DefaultIndex(ns, nl, 0);
      NodeLabelEmitted(env, gs, o, s, i);
    }
  }

  lemma {:induction false} DefaultIndex(ns: seq<CaseNode>, nl: nat, d: nat) returns (i: nat)
    requires LastDefault(ns, nl, d) != d
    ensures i < |ns| && ns[i].e.None? && LastDefault(ns, nl, d) == nl + i
    decreases ns
  {
    var d1 := if ns[0].e.None? then nl else d;
    if LastDefault(ns[1..], nl + 1, d1) != d1 {
      i := DefaultIndex(ns[1..], nl + 1, d1);
      i := i + 1;
    } else {
      i := 0;
    }
  }

  lemma NodeLabelEmitted(env: Env, gs: Scope, o: Out, s: Stmt, i: nat)
    requires s.Switch? && ScopeBelow(gs, o.nt) && Formed(s) && i < |Cases(s.body)|
    ensures Emitted(SwitchBody(env, gs, o, s).0.code, o.nl + 1 + i)
  {
    hide SwitchEnv, SwitchStart, DistinctNodes, Extends;
    SwitchNumber(env, o, s, i);
    MarkEmitted(SwitchEnv(env, o, s), gs, SwitchStart(gs, o, s), s.body, NodeMark(Cases(s.body)[i]));
  }

  /** The table of a switch numbers its nodes. */
  lemma SwitchNumber(env: Env, o: Out, s: Stmt, i: nat)
    requires s.Switch? && Formed(s) && i < |Cases(s.body)|
    ensures MarkLabel(SwitchEnv(env, o, s), NodeMark(Cases(s.body)[i])) == Some(o.nl + 1 + i)
  {
    hide DistinctNodes;
    CollectIs(s.body, Collected(o.nl + 1, [], 0));
    assert SwitchEnv(env, o, s).cases == Entries(Cases(s.body), o.nl + 1);
    NodeNumber(Cases(s.body), o.nl + 1, i);
  }

  lemma OuterSwitch(env: Env, o: Out, s: Stmt, l: nat)
    requires s.Switch? && Outer(SwitchEnv(env, o, s), l)
    ensures Outer(env, l) || l == o.nl
  {
  }

  lemma {:induction false} AnsweredSwitch(env: Env, gs: Scope, o: Out, s: Stmt, l: nat, ok: bool)
    requires s.Switch? && ScopeBelow(gs, o.nt) && Formed(s) && (Outer(env, l) ==> ok)
    ensures Answered(o, GenSwitch(env, gs, o, s).0, l, ok)
    decreases s, 0
  {
    hide Answered, Extends, HasJump, Emitted, Outer, DistinctNodes, IsTargetOf;
    var c, env1, oS := SwitchTable(o, s), SwitchEnv(env, o, s), SwitchStart(gs, o, s);
    var oN, oB := o.(nl := c.nl), SwitchBody(env, gs, o, s).0;
    var inTable := IsTargetOf(c.cases, l) || (l == c.dflt && l != 0);
    var own := l == o.nl || inTable;
    if Outer(env1, l) {
      OuterSwitch(env, o, s, l);
    }
    var k := ok || own;
    if inTable {
      TableEmitted(env, gs, o, s, l);
    }
    AnsweredSame(o, oN, l, k);
    AnsweredDispatch(gs, oN, s.e, c, o.nl, l, k);
    AnsweredThen(o, oN, oS, l, k);
    AnsweredStmt(env1, gs, oS, s.body, l, k);
    AnsweredThen(o, oS, oB, l, k);
    AnsweredEmit(o, oB, Label(o.nl), l, k);
    AnsweredOwn(o, Emit(oB, Label(o.nl)), l, ok, own);
  }

  /** Every label that a jump names is defined exactly once. */
  lemma JumpsLand(body: Stmt, l: nat)
    requires WellLabelled(body) && HasJump(GenFunc(body).code, l)
    ensures Count(GenFunc(body).code, l) == 1
  {
    FuncIs(body);
    LabelsUnique(body);
    var env, o, code := FuncEnv(body), FuncStart(body), GenFunc(body).code;
    AnsweredStmt(env, [], o, body, l, Outer(env, l));
    if !Emitted(code, l) {
      GotoEmitted(body, l);
    }
    var i :| 0 <= i < |code| && code[i] == Label(l);
    CountPositive(code, l, i);
  }

  /** Every entry of the label table is a label of the body, and its definition is emitted. */
  lemma GotoEmitted(body: Stmt, l: nat)
    requires WellLabelled(body) && Outer(FuncEnv(body), l)
    ensures Emitted(GenFunc(body).code, l)
  {
    hide GenFunc, GenStmt, Formed;
    FuncIs(body);
    var env, xs := FuncEnv(body), LabelNames(body);
    var k :| 0 <= k < |env.gotos| && env.gotos[k].1 == l;
    var i := |xs| - 1 - k;
    assert env.gotos[|xs| - 1 - i] == (xs[i], 1 + i);
    LookupEntry(xs, 1, i);
    MarkEmitted(env, [], FuncStart(body), body, NameMark(xs[i]));
  }

  // ----- temporaries and allocas -----

  function Operands(i: Instr): seq<Operand> {
    match i
    case Load(_, a, _, _) => [a]
    case Store(a, v, _) => [a, v]
    case Copy(_, v) => [v]
    case Bin(_, _, a, b, _) => [a, b]
    case Un(_, _, a) => [a]
    case Sext(_, v, _) => [v]
    case Zext(_, v, _) => [v]
    case Trunc(_, v, _, _) => [v]
    case Jz(c, _) => [c]
    case Jnz(c, _) => [c]
    case Ret(v) => if v.Some? then [v.value] else []
    case _ => []
  }

  function Dst(i: Instr): Option<nat> {
    match i
    case Alloca(d, _, _) => Some(d)
    case Load(d, _, _, _) => Some(d)
    case Copy(d, _) => Some(d)
    case Bin(_, d, _, _, _) => Some(d)
    case Un(_, d, _) => Some(d)
    case Sext(d, _, _) => Some(d)
    case Zext(d, _, _) => Some(d)
    case Trunc(d, _, _, _) => Some(d)
    case _ => None
  }

  /** Every temporary of the instruction has been handed out. */
  predicate InstrBelow(i: Instr, nt: nat) {
    && (Dst(i).Some? ==> 1 <= Dst(i).value < nt)
    && (forall k :: 0 <= k < |Operands(i)| ==> Below(Operands(i)[k], nt))
  }

  /** The temporaries that allocas define, in order. */
  function AllocaDsts(code: seq<Instr>): seq<nat> {
    if code == [] then []
    else
      var i := code[|code| - 1];
      AllocaDsts(code[..|code| - 1]) + if i.Alloca? then [i.dst] else []
  }

  function Temps(vars: seq<(nat, nat)>): (ts: seq<nat>)
    ensures |ts| == |vars| && forall i :: 0 <= i < |vars| ==> ts[i] == vars[i].1
  {
    seq(|vars|, i requires 0 <= i < |vars| => vars[i].1)
  }

  function Ids(vars: seq<(nat, nat)>): (ts: seq<nat>)
    ensures |ts| == |vars| && forall i :: 0 <= i < |vars| ==> ts[i] == vars[i].0
  {
    seq(|vars|, i requires 0 <= i < |vars| => vars[i].0)
  }

  /** All regions are those of `int` objects, and nothing is zero-extended. */
  predicate Plain(i: Instr) {
    (i.Alloca? ==> i.size == 4 && i.align == 4) && !i.Zext?
  }

  /** Code uses only temporaries handed out, and allocates one `int` for each declaration. */
  predicate Sound(o: Out) {
    && o.nt >= 1
    && (forall i :: 0 <= i < |o.code| ==> InstrBelow(o.code[i], o.nt))
    && (forall i :: 0 <= i < |o.code| ==> Plain(o.code[i]))
    && AllocaDsts(o.code) == Temps(o.vars)
    && (forall i :: 0 <= i < |o.vars| ==> o.vars[i].1 < o.nt)
    && (forall i, j :: 0 <= i < j < |o.vars| ==> o.vars[i].1 < o.vars[j].1)
  }

  lemma SoundEmit(o: Out, i: Instr)
    requires Sound(o) && InstrBelow(i, o.nt) && !i.Alloca? && !i.Zext?
    ensures Sound(Emit(o, i))
  {
    var code := Emit(o, i).code;
    assert code[..|code| - 1] == o.code;
    forall k | 0 <= k < |code|
      ensures InstrBelow(code[k], o.nt)
      ensures Plain(code[k])
    {
      if k < |o.code| {
        assert code[k] == o.code[k];
      }
    }
  }

  lemma BelowMore(i: Instr, nt: nat, nt2: nat)
    requires InstrBelow(i, nt) && nt <= nt2
    ensures InstrBelow(i, nt2)
  {
  }

  lemma SoundTemp(o: Out)
    requires Sound(o)
    ensures Sound(NewTemp(o))
  {
    forall i | 0 <= i < |o.code|
      ensures InstrBelow(o.code[i], o.nt + 1)
    {
      BelowMore(o.code[i], o.nt, o.nt + 1);
    }
  }

  lemma SoundLabels(o: Out, o1: Out)
    requires Sound(o) && o1 == o.(nl := o1.nl)
    ensures Sound(o1)
  {
  }

  /** One instruction into the fresh temporary of `o`. */
  lemma SoundNew(o: Out, i: Instr)
    requires Sound(o) && InstrBelow(i, o.nt + 1) && !i.Alloca? && !i.Zext?
    ensures Sound(Emit(NewTemp(o), i))
  {
    SoundTemp(o);
    SoundEmit(NewTemp(o), i);
  }

  lemma SoundAlloca(o: Out, id: nat)
    requires Sound(o)
    ensures Sound(GenAlloca(o, id))
  {
    SoundTemp(o);
    var o1 := GenAlloca(o, id);
    assert o1.code[..|o1.code| - 1] == o.code;
    assert AllocaDsts(o1.code) == AllocaDsts(o.code) + [o.nt];
    assert Temps(o1.vars) == Temps(o.vars) + [o.nt];
    forall k | 0 <= k < |o1.code|
      ensures InstrBelow(o1.code[k], o1.nt)
      ensures Plain(o1.code[k])
    {
      if k < |o.code| {
        assert o1.code[k] == o.code[k];
        BelowMore(o.code[k], o.nt, o1.nt);
      }
    }
  }

  lemma {:induction false} LookupBelow(gs: Scope, x: string, nt: nat)
    requires ScopeBelow(gs, nt)
    ensures Below(Address(gs, x), nt)
  {
    if gs != [] && gs[0].0 != x {
      LookupBelow(gs[1..], x, nt);
    }
  }

  lemma {:induction false} SoundTail(o: Out, fin: seq<Instr>)
    requires Sound(o) && forall i :: 0 <= i < |fin| ==> InstrBelow(fin[i], o.nt) && !fin[i].Alloca? && !fin[i].Zext?
    ensures Sound(o.(code := o.code + fin))
    decreases fin
  {
    if fin == [] {
      assert o.code + fin == o.code;
    } else {
      SoundTail(o, fin[..|fin| - 1]);
      SoundEmit(o.(code := o.code + fin[..|fin| - 1]), fin[|fin| - 1]);
      assert o.code + fin == (o.code + fin[..|fin| - 1]) + [fin[|fin| - 1]];
    }
  }

  lemma {:induction false} SoundExpr(gs: Scope, o: Out, e: Expr)
    requires ScopeBelow(gs, o.nt) && Sound(o)
    ensures Sound(GenExpr(gs, o, e).0)
    decreases e, 1
  {
    hide Sound, Extends;
    SoundPositive(o);
    match e
    case IntLit(_) =>
    case Ident(x) =>
      LookupBelow(gs, x, o.nt);
      SoundNew(o, Load(o.nt, Address(gs, x), 4, true));
    case Unary(op, a) =>
      var (o1, v) := GenExpr(gs, o, a);
      SoundExpr(gs, o, a);
      SoundTemp(o1);
      SoundNew(o1, Un(Neg, o1.nt, v));
      SoundNew(o1, Un(Not, o1.nt, v));
      SoundNew(o1, Bin(Eq, o1.nt, v, Imm(0), false));
    case PreIncDec(inc, x) => SoundStep(gs, o, x, inc, false);
    case PostIncDec(inc, x) => SoundStep(gs, o, x, inc, true);
    case Binary(op, a, b) =>
      var (o1, lv) := GenExpr(gs, o, a);
      var (o2, rv) := GenExpr(gs, o1, b);
      SoundExpr(gs, o, a);
      SoundExpr(gs, o1, b);
      SoundNew(o2, Bin(op, o2.nt, lv, rv, false));
    case LogAnd(_, _) => SoundLogical(gs, o, e);
    case LogOr(_, _) => SoundLogical(gs, o, e);
    case Assign(x, a) =>
      var (o1, v) := GenExpr(gs, o, a);
      SoundExpr(gs, o, a);
      LookupBelow(gs, x, o1.nt);
      SoundEmit(o1, Store(Address(gs, x), v, 4));
    case CompoundAssign(op, x, a) =>
      var o1 := GenLoad(o, Address(gs, x));
      var (o2, rv) := GenExpr(gs, o1, a);
      var o3 := Emit(NewTemp(o2), Bin(op, o2.nt, Temp(o.nt), rv, false));
      LookupBelow(gs, x, o.nt);
      SoundNew(o, Load(o.nt, Address(gs, x), 4, true));
      SoundExpr(gs, o1, a);
      SoundNew(o2, Bin(op, o2.nt, Temp(o.nt), rv, false));
      SoundEmit(o3, Store(Address(gs, x), Temp(o2.nt), 4));
    case Ternary(_, _, _) => SoundTernary(gs, o, e);
    case Comma(a, b) =>
      SoundExpr(gs, o, a);
      SoundExpr(gs, GenExpr(gs, o, a).0, b);
  }

  lemma SoundPositive(o: Out)
    requires Sound(o)
    ensures o.nt >= 1
  {
  }

  lemma SoundStep(gs: Scope, o: Out, x: string, inc: bool, post: bool)
    requires ScopeBelow(gs, o.nt) && Sound(o)
    ensures Sound(GenStep(gs, o, x, inc, post).0)
  {
    hide Sound, Extends;
    SoundPositive(o);
    var addr := Address(gs, x);
    var o1 := GenLoad(o, addr);
    var i := Bin(if inc then Add else Sub, o1.nt, Temp(o.nt), Imm(1), false);
    LookupBelow(gs, x, o.nt);
    SoundNew(o, Load(o.nt, addr, 4, true));
    SoundNew(o1, i);
    SoundEmit(Emit(NewTemp(o1), i), Store(addr, Temp(o1.nt), 4));
  }

  lemma {:induction false} SoundLogical(gs: Scope, o: Out, e: Expr)
    requires ScopeBelow(gs, o.nt) && Sound(o) && (e.LogAnd? || e.LogOr?)
    ensures Sound(GenExpr(gs, o, e).0)
    decreases e, 0
  {
    hide Sound, Extends;
    SoundPositive(o);
    var o0 := NewLabels(NewTemp(o), 3);
    var (o1, lv) := GenExpr(gs, o0, e.left);
    var i := if e.LogAnd? then Jz(lv, o.nl + 1) else Jnz(lv, o.nl + 2);
    var o2 := Emit(o1, i);
    var (o3, rv) := GenExpr(gs, o2, e.right);
    var fin := if e.LogAnd? then
        [Jnz(rv, o.nl + 2), Jmp(o.nl + 1), Label(o.nl + 1), Copy(o.nt, Imm(0)),
         Jmp(o.nl), Label(o.nl + 2), Copy(o.nt, Imm(1)), Label(o.nl)]
      else [Jnz(rv, o.nl + 2), Copy(o.nt, Imm(0)), Jmp(o.nl), Label(o.nl + 2), Copy(o.nt, Imm(1)), Label(o.nl)];
    SoundTemp(o);
    SoundLabels(NewTemp(o), o0);
    SoundExpr(gs, o0, e.left);
    SoundEmit(o1, i);
    SoundExpr(gs, o2, e.right);
    SoundTail(o3, fin);
  }

  lemma {:induction false} SoundTernary(gs: Scope, o: Out, e: Expr)
    requires ScopeBelow(gs, o.nt) && Sound(o) && e.Ternary?
    ensures Sound(GenExpr(gs, o, e).0)
    decreases e, 0
  {
    hide Sound, Extends;
    SoundPositive(o);
    var o0 := NewTemp(NewLabels(o, 3));
    var (o1, cv) := GenExpr(gs, o0, e.cond);
    var o2 := Emit(Emit(o1, Jz(cv, o.nl + 1)), Label(o.nl));
    var (o3, av) := GenExpr(gs, o2, e.thn);
    var o4 := Emit(Emit(Emit(o3, Copy(o.nt, av)), Jmp(o.nl + 2)), Label(o.nl + 1));
    var (o5, bv) := GenExpr(gs, o4, e.els);
    SoundLabels(o, NewLabels(o, 3));
    SoundTemp(NewLabels(o, 3));
    SoundExpr(gs, o0, e.cond);
    SoundEmit(o1, Jz(cv, o.nl + 1));
    SoundEmit(Emit(o1, Jz(cv, o.nl + 1)), Label(o.nl));
    SoundExpr(gs, o2, e.thn);
    SoundEmit(o3, Copy(o.nt, av));
    SoundEmit(Emit(o3, Copy(o.nt, av)), Jmp(o.nl + 2));
    SoundEmit(Emit(Emit(o3, Copy(o.nt, av)), Jmp(o.nl + 2)), Label(o.nl + 1));
    SoundExpr(gs, o4, e.els);
    SoundEmit(o5, Copy(o.nt, bv));
    SoundEmit(Emit(o5, Copy(o.nt, bv)), Label(o.nl + 2));
  }

  lemma SoundTest(gs: Scope, o: Out, test: Option<Expr>, exit: nat)
    requires ScopeBelow(gs, o.nt) && Sound(o)
    ensures Sound(GenTest(gs, o, test, exit))
  {
    hide Sound, Extends;
    if test.Some? {
      SoundExpr(gs, o, test.value);
      SoundEmit(GenExpr(gs, o, test.value).0, Jz(GenExpr(gs, o, test.value).1, exit));
    }
  }

  lemma {:induction false} SoundTests(o: Out, sv: nat, cases: seq<CaseEntry>)
    requires Sound(o) && sv < o.nt
    ensures Sound(EmitTests(o, sv, cases))
    decreases cases
  {
    hide Sound, Extends;
    if cases != [] {
      if cases[0].isDefault {
        SoundTests(o, sv, cases[1..]);
      } else {
        var o1 := Emit(NewTemp(o), Bin(Eq, o.nt, Temp(sv), Imm(cases[0].val), false));
        SoundPositive(o);
        SoundNew(o, Bin(Eq, o.nt, Temp(sv), Imm(cases[0].val), false));
        SoundEmit(o1, Jnz(Temp(o.nt), cases[0].target));
        SoundTests(Emit(o1, Jnz(Temp(o.nt), cases[0].target)), sv, cases[1..]);
      }
    }
  }

  lemma SoundDispatch(gs: Scope, o: Out, e: Expr, c: Collected, end: nat)
    requires ScopeBelow(gs, o.nt) && Sound(o)
    ensures Sound(GenDispatch(gs, o, e, c, end))
  {
    hide Sound, Extends;
    var (o1, v) := GenExpr(gs, o, e);
    var o2 := Emit(NewTemp(o1), Copy(o1.nt, v));
    SoundExpr(gs, o, e);
    SoundPositive(o1);
    SoundNew(o1, Copy(o1.nt, v));
    SoundTests(o2, o1.nt, c.cases);
    SoundEmit(EmitTests(o2, o1.nt, c.cases), Jmp(if c.dflt != 0 then c.dflt else end));
  }

  lemma SoundOptLabel(o: Out, l: Option<nat>)
    requires Sound(o)
    ensures Sound(EmitOptLabel(o, l)) && Sound(EmitOptJmp(o, l))
  {
    hide Sound;
    if l.Some? {
      SoundEmit(o, Label(l.value));
      SoundEmit(o, Jmp(l.value));
    }
  }

  lemma {:induction false} SoundStmt(env: Env, gs: Scope, o: Out, s: Stmt)
    requires ScopeBelow(gs, o.nt) && Sound(o)
    ensures Sound(GenStmt(env, gs, o, s).0)
    decreases s, 2
  {
    hide Sound, Extends, GenWhile, GenDoWhile, GenFor, GenSwitch, GenIf;
    match s
    case End =>
    case Then(a, b) =>
      SoundStmt(env, gs, o, a);
      SoundStmt(env, GenStmt(env, gs, o, a).1, GenStmt(env, gs, o, a).0, b);
    case Compound(b) => SoundStmt(env, gs, o, b);
    case ExprStmt(e) => SoundExpr(gs, o, e);
    case Decl(_, _, _) => SoundDecl(gs, o, s);
    case If(_, _, _) => SoundIf(env, gs, o, s);
    case While(_, _) => SoundWhile(env, gs, o, s);
    case DoWhile(_, _) => SoundDo(env, gs, o, s);
    case For(start, _, _, _) => SoundFor(env, gs, o, s);
    case Return(e) =>
      SoundEmit(o, Ret(None));
      if e.Some? {
        SoundExpr(gs, o, e.value);
        SoundEmit(GenExpr(gs, o, e.value).0, Ret(Some(GenExpr(gs, o, e.value).1)));
      }
    case Break => SoundOptLabel(o, if env.brk != 0 then Some(env.brk) else None);
    case Continue => SoundOptLabel(o, if env.cont != 0 then Some(env.cont) else None);
    case Switch(_, _) => SoundSwitch(env, gs, o, s);
    case Case(id, _, b) => SoundLabelled(env, gs, o, FindCase(env.cases, id, false), b);
    case Default(id, b) => SoundLabelled(env, gs, o, FindCase(env.cases, id, true), b);
    case Goto(x) => SoundOptLabel(o, Lookup(env.gotos, x));
    case Labelled(x, b) => SoundLabelled(env, gs, o, Lookup(env.gotos, x), b);
  }

  lemma {:induction false} SoundLabelled(env: Env, gs: Scope, o: Out, at: Option<nat>, b: Stmt)
    requires ScopeBelow(gs, o.nt) && Sound(o)
    ensures Sound(GenStmt(env, gs, EmitOptLabel(o, at), b).0)
    decreases b, 3
  {
    SoundOptLabel(o, at);
    SoundStmt(env, gs, EmitOptLabel(o, at), b);
  }

  lemma SoundDecl(gs: Scope, o: Out, s: Stmt)
    requires s.Decl? && ScopeBelow(gs, o.nt) && Sound(o)
    ensures Sound(GenDecl(gs, o, s).0)
  {
    hide Sound, Extends;
    var o1, gs1 := GenAlloca(o, s.id), [(s.name, o.nt)] + gs;
    SoundAlloca(o, s.id);
    if s.init.Some? {
      SoundExpr(gs1, o1, s.init.value);
      var (o2, v) := GenExpr(gs1, o1, s.init.value);
      SoundEmit(o2, Store(Temp(o.nt), v, 4));
    }
  }

  lemma {:induction false} SoundIf(env: Env, gs: Scope, o: Out, s: Stmt)
    requires s.If? && ScopeBelow(gs, o.nt) && Sound(o)
    ensures Sound(GenIf(env, gs, o, s).0)
    decreases s, 0
  {
    hide Sound, Extends;
    var oT := GenTest(gs, NewLabels(o, 2), Some(s.cond), o.nl);
    var (o2, gs2) := IfThen(env, gs, o, s);
    SoundLabels(o, NewLabels(o, 2));
    SoundTest(gs, NewLabels(o, 2), Some(s.cond), o.nl);
    SoundStmt(env, gs, oT, s.thn);
    SoundEmit(o2, Label(o.nl));
    if s.els.Some? {
      SoundEmit(o2, Jmp(o.nl + 1));
      SoundEmit(Emit(o2, Jmp(o.nl + 1)), Label(o.nl));
      SoundStmt(env, gs2, Emit(Emit(o2, Jmp(o.nl + 1)), Label(o.nl)), s.els.value);
      SoundEmit(IfElse(env, gs, o, s).0, Label(o.nl + 1));
    }
  }

  lemma {:induction false} SoundWhile(env: Env, gs: Scope, o: Out, s: Stmt)
    requires s.While? && ScopeBelow(gs, o.nt) && Sound(o)
    ensures Sound(GenWhile(env, gs, o, s).0)
    decreases s, 0
  {
    hide Sound, Extends;
    var oP := Emit(NewLabels(o, 3), Label(o.nl));
    var oB := WhileBody(env, gs, o, s).0;
    SoundLabels(o, NewLabels(o, 3));
    SoundEmit(NewLabels(o, 3), Label(o.nl));
    SoundTest(gs, oP, Some(s.cond), o.nl + 2);
    SoundEmit(GenTest(gs, oP, Some(s.cond), o.nl + 2), Label(o.nl + 1));
    SoundStmt(env.(brk := o.nl + 2, cont := o.nl), gs, WhileStart(gs, o, s), s.body);
    SoundEmit(oB, Jmp(o.nl));
    SoundEmit(Emit(oB, Jmp(o.nl)), Label(o.nl + 2));
  }

  lemma {:induction false} SoundDo(env: Env, gs: Scope, o: Out, s: Stmt)
    requires s.DoWhile? && ScopeBelow(gs, o.nt) && Sound(o)
    ensures Sound(GenDoWhile(env, gs, o, s).0)
    decreases s, 0
  {
    hide Sound, Extends;
    var oP := Emit(NewLabels(o, 3), Label(o.nl));
    var (oB, gsB) := DoBody(env, gs, o, s);
    var (oT, v) := DoTest(env, gs, o, s);
    SoundLabels(o, NewLabels(o, 3));
    SoundEmit(NewLabels(o, 3), Label(o.nl));
    SoundStmt(env.(brk := o.nl + 2, cont := o.nl + 1), gs, oP, s.body);
    SoundEmit(oB, Label(o.nl + 1));
    SoundExpr(gsB, Emit(oB, Label(o.nl + 1)), s.cond);
    SoundEmit(oT, Jnz(v, o.nl));
    SoundEmit(Emit(oT, Jnz(v, o.nl)), Label(o.nl + 2));
  }

  lemma {:induction false} SoundFor(env: Env, gs: Scope, o: Out, s: Stmt)
    requires s.For? && ScopeBelow(gs, o.nt) && Sound(o)
    ensures Sound(GenFor(env, gs, o, s).0)
    decreases s, 1
  {
    hide Sound, Extends, GenForLoop;
    var env1 := ForEnv(env, o.nl);
    var (o1, gs1) := ForInit(env, gs, o, s);
    SoundLabels(o, NewLabels(o, 4));
    SoundStmt(env1, gs, NewLabels(o, 4), s.start);
    SoundForLoop(env1, gs1, o1, s, o.nl);
  }

  lemma {:induction false} SoundSwitch(env: Env, gs: Scope, o: Out, s: Stmt)
    requires s.Switch? && ScopeBelow(gs, o.nt) && Sound(o)
    ensures Sound(GenSwitch(env, gs, o, s).0)
    decreases s, 0
  {
    hide Sound, Extends, GenDispatch;
    var c := SwitchTable(o, s);
    SoundLabels(o, o.(nl := c.nl));
    SoundDispatch(gs, o.(nl := c.nl), s.e, c, o.nl);
    SoundStmt(SwitchEnv(env, o, s), gs, SwitchStart(gs, o, s), s.body);
    SoundEmit(SwitchBody(env, gs, o, s).0, Label(o.nl));
  }

  lemma {:induction false} SoundForLoop(env: Env, gs: Scope, o: Out, s: Stmt, nl: nat)
    requires s.For? && ScopeBelow(gs, o.nt) && Sound(o)
    ensures Sound(GenForLoop(env, gs, o, s, nl))
    decreases s, 0
  {
    hide Sound, Extends;
    var oP := Emit(o, Label(nl));
    var oT := GenTest(gs, oP, s.test, nl + 3);
    var (oB, gsB) := ForBody(env, gs, o, s, nl);
    var oC, oI := Emit(oB, Label(nl + 2)), ForIncr(env, gs, o, s, nl);
    SoundEmit(o, Label(nl));
    SoundTest(gs, oP, s.test, nl + 3);
    SoundEmit(oT, Label(nl + 1));
    SoundStmt(env, gs, ForStart(gs, o, s, nl), s.body);
    SoundEmit(oB, Label(nl + 2));
    if s.incr.Some? {
      SoundExpr(gsB, oC, s.incr.value);
    }
    SoundEmit(oI, Jmp(nl));
    SoundEmit(Emit(oI, Jmp(nl)), Label(nl + 3));
  }

  lemma ForLoopVars(env: Env, gs: Scope, o: Out, s: Stmt, nl: nat)
    requires s.For? && ScopeBelow(gs, o.nt)
    ensures GenForLoop(env, gs, o, s, nl).vars == ForBody(env, gs, o, s, nl).0.vars
    ensures ForBody(env, gs, o, s, nl) == GenStmt(env, gs, ForStart(gs, o, s, nl), s.body)
    ensures ForStart(gs, o, s, nl).vars == o.vars
  {
    hide Extends;
  }

  /** The declarations recorded are those of the statement, in order. */
  lemma {:induction false} DeclsRecorded(env: Env, gs: Scope, o: Out, s: Stmt)
    requires ScopeBelow(gs, o.nt)
    ensures Ids(GenStmt(env, gs, o, s).0.vars) == Ids(o.vars) + DeclIds(s)
    decreases s
  {
    hide Extends, GenForLoop, ForStart, GenTest, GenDispatch, GenExpr;
    match s
    case Then(a, b) =>
      DeclsRecorded(env, gs, o, a);
      DeclsRecorded(env, GenStmt(env, gs, o, a).1, GenStmt(env, gs, o, a).0, b);
    case Compound(b) => DeclsRecorded(env, gs, o, b);
    case If(_, a, b) =>
      var (o2, gs2) := IfThen(env, gs, o, s);
      DeclsRecorded(env, gs, GenTest(gs, NewLabels(o, 2), Some(s.cond), o.nl), a);
      if b.Some? {
        DeclsRecorded(env, gs2, Emit(Emit(o2, Jmp(o.nl + 1)), Label(o.nl)), b.value);
      } else {
        assert DeclIds(s) == DeclIds(a);
      }
      assert GenStmt(env, gs, o, s) == GenIf(env, gs, o, s);
    case While(c, b) =>
      DeclsRecorded(env.(brk := o.nl + 2, cont := o.nl), gs, WhileStart(gs, o, s), b);
      assert GenStmt(env, gs, o, s) == GenWhile(env, gs, o, s);
    case DoWhile(b, c) =>
      DeclsRecorded(env.(brk := o.nl + 2, cont := o.nl + 1), gs, Emit(NewLabels(o, 3), Label(o.nl)), b);
      assert GenStmt(env, gs, o, s) == GenDoWhile(env, gs, o, s);
    case For(start, test, incr, b) =>
      var (o1, gs1) := ForInit(env, gs, o, s);
      DeclsRecorded(ForEnv(env, o.nl), gs, NewLabels(o, 4), start);
      DeclsRecorded(ForEnv(env, o.nl), gs1, ForStart(gs1, o1, s, o.nl), b);
      ForLoopVars(ForEnv(env, o.nl), gs1, o1, s, o.nl);
      assert GenStmt(env, gs, o, s) == GenFor(env, gs, o, s);
    case Switch(e, b) =>
      DeclsRecorded(SwitchEnv(env, o, s), gs, SwitchStart(gs, o, s), b);
      assert GenStmt(env, gs, o, s) == GenSwitch(env, gs, o, s);
    case Case(id, _, b) => DeclsRecorded(env, gs, EmitOptLabel(o, FindCase(env.cases, id, false)), b);
    case Default(id, b) => DeclsRecorded(env, gs, EmitOptLabel(o, FindCase(env.cases, id, true)), b);
    case Labelled(x, b) => DeclsRecorded(env, gs, EmitOptLabel(o, Lookup(env.gotos, x)), b);
    case Decl(id, _, _) => assert Ids(o.vars + [(id, o.nt)]) == Ids(o.vars) + [id];
    case _ =>
  }

  lemma FuncSound(body: Stmt)
    requires Valid(body)
    ensures Sound(GenFunc(body)) && Ids(GenFunc(body).vars) == DeclIds(body)
  {
    FuncIs(body);
    SoundStmt(FuncEnv(body), [], FuncStart(body), body);
    DeclsRecorded(FuncEnv(body), [], FuncStart(body), body);
  }
}
