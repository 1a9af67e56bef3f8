/**
 Label integrity: how often each label is emitted, where jumps lead, and what the emitted code
 says about temporaries and allocas.
 */
module Labels {
  import opened Wrappers
  import opened Ast
  import opened Ir
  import opened IrGen
  import opened Semantics
  import opened Switches
  import opened Simulation

  function One(b: bool): nat {
    if b then 1 else 0
  }

  /** How often label `l` is defined in `code`. */
  function Count(code: seq<Instr>, l: nat): nat {
    if code == [] then 0 else Count(code[..|code| - 1], l) + One(code[|code| - 1] == Label(l))
  }

  lemma {:induction false} CountAppend(a: seq<Instr>, b: seq<Instr>, l: nat)
    ensures Count(a + b, l) == Count(a, l) + Count(b, l)
  {
    if b == [] {
      assert a + b == a;
    } else {
      CountAppend(a, b[..|b| - 1], l);
      assert (a + b)[..|a + b| - 1] == a + b[..|b| - 1];
    }
  }

  lemma {:induction false} CountAtMostOnce(code: seq<Instr>, l: nat, i: nat, j: nat)
    requires i < j < |code| && code[i] == code[j] == Label(l)
    ensures Count(code, l) >= 2
  {
    if j < |code| - 1 {
      CountAtMostOnce(code[..|code| - 1], l, i, j);
    } else {
      CountPositive(code[..j], l, i);
    }
  }

  lemma {:induction false} CountPositive(code: seq<Instr>, l: nat, i: nat)
    requires i < |code| && code[i] == Label(l)
    ensures Count(code, l) >= 1
  {
    if i < |code| - 1 {
      CountPositive(code[..|code| - 1], l, i);
    }
  }

  /**
   Between `o1` and `o2`, `l` was emitted `k` times as a label assigned beforehand, and at most
   once more, as a label handed out in between.
   */
  predicate Fresh(o1: Out, o2: Out, l: nat, k: nat) {
    && o1.nl <= o2.nl
    && Count(o1.code, l) + k <= Count(o2.code, l) <= Count(o1.code, l) + k + 1
    && (Count(o2.code, l) != Count(o1.code, l) + k ==> o1.nl <= l < o2.nl)
  }

  lemma FreshEmit(o: Out, i: Instr, l: nat)
    ensures Fresh(o, Emit(o, i), l, One(i == Label(l)))
  {
    CountAppend(o.code, [i], l);
    assert [i][..0] == [];
  }

  lemma FreshThen(o1: Out, o2: Out, o3: Out, l: nat, j: nat, k: nat)
    requires Fresh(o1, o2, l, j) && Fresh(o2, o3, l, k)
    ensures Fresh(o1, o3, l, j + k)
  {
  }

  lemma FreshSame(o1: Out, o2: Out, l: nat)
    requires o1.code == o2.code && o1.nl == o2.nl
    ensures Fresh(o1, o2, l, 0)
  {
  }

  /** Labels in `[o.nl, o.nl + n)` that were emitted after being handed out become fresh ones. */
  lemma FreshLabels(o: Out, o1: Out, o2: Out, l: nat, k: nat, used: nat)
    requires o1.code == o.code && o.nl <= o1.nl && Fresh(o1, o2, l, k + used)
    requires used <= One(o.nl <= l < o1.nl)
    ensures Fresh(o, o2, l, k)
  {
  }

  /** `n` consecutive labels, each counted once, are at most one label each. */
  lemma FewLabels(nl: nat, l: nat)
    ensures One(l == nl) + One(l == nl + 1) <= One(nl <= l < nl + 2)
    ensures One(l == nl) + One(l == nl + 1) + One(l == nl + 2) <= One(nl <= l < nl + 3)
    ensures One(l == nl) + One(l == nl + 1) + One(l == nl + 2) + One(l == nl + 3) <= One(nl <= l < nl + 4)
    ensures One(l == nl) <= One(nl <= l < nl + 2)
  {
  }

  lemma FreshLabel(o: Out, o1: Out, x: nat, l: nat, k: nat)
    requires Fresh(o, o1, l, k)
    ensures Fresh(o, Emit(o1, Label(x)), l, k + One(l == x))
  {
    FreshEmit(o1, Label(x), l);
  }

  lemma FreshCode(o: Out, o1: Out, i: Instr, l: nat, k: nat)
    requires Fresh(o, o1, l, k) && !i.Label?
    ensures Fresh(o, Emit(o1, i), l, k)
  {
    FreshEmit(o1, i, l);
  }

  lemma {:induction false} CountExpr(gs: Scope, o: Out, e: Expr, l: nat)
    requires ScopeBelow(gs, o.nt)
    ensures Fresh(o, GenExpr(gs, o, e).0, l, 0)
    decreases e
  {
    hide Fresh, Count, One, Extends;
    FreshSame(o, o, l);
    match e
    case IntLit(_) =>
    case Ident(x) =>
      FreshSame(o, NewTemp(o), l);
      FreshCode(o, NewTemp(o), Load(o.nt, Address(gs, x), 4, true), l, 0);
    case Unary(op, a) =>
      var (o1, v) := GenExpr(gs, o, a);
      CountExpr(gs, o, a, l);
      FreshSame(o1, NewTemp(o1), l);
      FreshThen(o, o1, NewTemp(o1), l, 0, 0);
      if op != Plus {
        var i := if op == Minus then Un(Neg, o1.nt, v) else if op == Tilde then Un(Not, o1.nt, v)
                 else Bin(Eq, o1.nt, v, Imm(0), false);
        FreshCode(o, NewTemp(o1), i, l, 0);
      }
    case PreIncDec(inc, x) => CountStep(gs, o, x, inc, false, l);
    case PostIncDec(inc, x) => CountStep(gs, o, x, inc, true, l);
    case Binary(op, a, b) =>
      var (o1, lv) := GenExpr(gs, o, a);
      var (o2, rv) := GenExpr(gs, o1, b);
      CountExpr(gs, o, a, l);
      CountExpr(gs, o1, b, l);
      FreshThen(o, o1, o2, l, 0, 0);
      FreshPlain(o, o2, NewTemp(o2), Bin(op, o2.nt, lv, rv, false), l);
    case LogAnd(_, _) => CountLogical(gs, o, e, l);
    case LogOr(_, _) => CountLogical(gs, o, e, l);
    case Assign(x, a) =>
      var (o1, v) := GenExpr(gs, o, a);
      CountExpr(gs, o, a, l);
      FreshPlain(o, o1, o1, Store(Address(gs, x), v, 4), l);
    case CompoundAssign(op, x, a) =>
      var o1 := GenLoad(o, Address(gs, x));
      var (o2, rv) := GenExpr(gs, o1, a);
      var o3 := Emit(NewTemp(o2), Bin(op, o2.nt, Temp(o.nt), rv, false));
      FreshPlain(o, o, NewTemp(o), Load(o.nt, Address(gs, x), 4, true), l);
      CountExpr(gs, o1, a, l);
      FreshThen(o, o1, o2, l, 0, 0);
      FreshPlain(o, o2, NewTemp(o2), Bin(op, o2.nt, Temp(o.nt), rv, false), l);
      FreshPlain(o, o3, o3, Store(Address(gs, x), Temp(o2.nt), 4), l);
    case Ternary(_, _, _) => CountTernary(gs, o, e, l);
    case Comma(a, b) =>
      var o1 := GenExpr(gs, o, a).0;
      CountExpr(gs, o, a, l);
      CountExpr(gs, o1, b, l);
      FreshThen(o, o1, GenExpr(gs, o1, b).0, l, 0, 0);
  }

  /** Any instruction that is not a label leaves the counts alone; `o2` may have taken a temporary. */
  lemma FreshPlain(o: Out, o1: Out, o2: Out, i: Instr, l: nat)
    requires Fresh(o, o1, l, 0) && o2.code == o1.code && o2.nl == o1.nl && !i.Label?
    ensures Fresh(o, Emit(o2, i), l, 0)
  {
    FreshEmit(o2, i, l);
  }

  lemma CountStep(gs: Scope, o: Out, x: string, inc: bool, post: bool, l: nat)
    requires ScopeBelow(gs, o.nt)
    ensures Fresh(o, GenStep(gs, o, x, inc, post).0, l, 0)
  {
    hide Fresh;
    var addr := Address(gs, x);
    var o1 := GenLoad(o, addr);
    var i := Bin(if inc then Add else Sub, o1.nt, Temp(o.nt), Imm(1), false);
    var o2 := Emit(NewTemp(o1), i);
    FreshSame(o, o, l);
    FreshPlain(o, o, NewTemp(o), Load(o.nt, addr, 4, true), l);
    FreshPlain(o, o1, NewTemp(o1), i, l);
    FreshPlain(o, o2, o2, Store(addr, Temp(o1.nt), 4), l);
  }

  lemma CountTail(fin: seq<Instr>, l: nat, k: nat)
    requires |fin| <= 8
    requires k == (One(0 < |fin| && fin[0] == Label(l)) + One(1 < |fin| && fin[1] == Label(l))
                 + One(2 < |fin| && fin[2] == Label(l)) + One(3 < |fin| && fin[3] == Label(l))
                 + One(4 < |fin| && fin[4] == Label(l)) + One(5 < |fin| && fin[5] == Label(l))
                 + One(6 < |fin| && fin[6] == Label(l)) + One(7 < |fin| && fin[7] == Label(l)))
    ensures Count(fin, l) == k
    decreases fin
  {
    if fin != [] {
      var n := |fin| - 1;
      CountTail(fin[..n], l, k - One(fin[n] == Label(l)));
    }
  }

  lemma FreshTail(o: Out, fin: seq<Instr>, l: nat)
    ensures Fresh(o, o.(code := o.code + fin), l, Count(fin, l))
  {
    CountAppend(o.code, fin, l);
  }

  lemma {:induction false} CountLogical(gs: Scope, o: Out, e: Expr, l: nat)
    requires ScopeBelow(gs, o.nt) && (e.LogAnd? || e.LogOr?)
    ensures Fresh(o, GenExpr(gs, o, e).0, l, 0)
    decreases e, 0
  {
    hide Fresh, Count, One, Extends;
    var o0 := NewLabels(NewTemp(o), 3);
    var (o1, lv) := GenExpr(gs, o0, e.left);
    var i := if e.LogAnd? then Jz(lv, o.nl + 1) else Jnz(lv, o.nl + 2);
    var o2 := Emit(o1, i);
    var (o3, rv) := GenExpr(gs, o2, e.right);
    CountExpr(gs, o0, e.left, l);
    FreshCode(o0, o1, i, l, 0);
    CountExpr(gs, o2, e.right, l);
    FreshThen(o0, o2, o3, l, 0, 0);
    CountFinish(o, o0, o3, e.LogAnd?, rv, l);
  }

  /** The tail of `&&` and `||` defines the labels handed out for it, each once. */
  lemma CountFinish(o: Out, o0: Out, o3: Out, and: bool, rv: Operand, l: nat)
    requires Fresh(o0, o3, l, 0) && o0.code == o.code && o0.nl == o.nl + 3
    ensures Fresh(o, if and then FinishAnd(o3, rv, o.nt, o.nl) else FinishOr(o3, rv, o.nt, o.nl), l, 0)
  {
    hide Count, Extends, Fresh;
    var fin := if and then
        [Jnz(rv, o.nl + 2), Jmp(o.nl + 1), Label(o.nl + 1), Copy(o.nt, Imm(0)),
         Jmp(o.nl), Label(o.nl + 2), Copy(o.nt, Imm(1)), Label(o.nl)]
      else [Jnz(rv, o.nl + 2), Copy(o.nt, Imm(0)), Jmp(o.nl), Label(o.nl + 2), Copy(o.nt, Imm(1)), Label(o.nl)];
    var used := One(l == o.nl) + One(l == o.nl + 2) + One(and && l == o.nl + 1);
    CountTail(fin, l, used);
    FreshTail(o3, fin, l);
    FreshThen(o0, o3, o3.(code := o3.code + fin), l, 0, used);
    FreshLabels(o, o0, o3.(code := o3.code + fin), l, 0, used);
  }

  lemma {:induction false} CountTernary(gs: Scope, o: Out, e: Expr, l: nat)
    requires ScopeBelow(gs, o.nt) && e.Ternary?
    ensures Fresh(o, GenExpr(gs, o, e).0, l, 0)
    decreases e, 0
  {
    hide Fresh, Count, One, Extends;
    FewLabels(o.nl, l);
    var o0 := NewTemp(NewLabels(o, 3));
    var (o1, cv) := GenExpr(gs, o0, e.cond);
    var o2 := Emit(Emit(o1, Jz(cv, o.nl + 1)), Label(o.nl));
    var (o3, av) := GenExpr(gs, o2, e.thn);
    var o4 := Emit(Emit(Emit(o3, Copy(o.nt, av)), Jmp(o.nl + 2)), Label(o.nl + 1));
    var (o5, bv) := GenExpr(gs, o4, e.els);
    var j0, j1, j2 := One(l == o.nl), One(l == o.nl + 1), One(l == o.nl + 2);
    CountExpr(gs, o0, e.cond, l);
    FreshCode(o0, o1, Jz(cv, o.nl + 1), l, 0);
    FreshLabel(o0, Emit(o1, Jz(cv, o.nl + 1)), o.nl, l, 0);
    CountExpr(gs, o2, e.thn, l);
    FreshThen(o0, o2, o3, l, j0, 0);
    FreshCode(o0, o3, Copy(o.nt, av), l, j0);
    FreshCode(o0, Emit(o3, Copy(o.nt, av)), Jmp(o.nl + 2), l, j0);
    FreshLabel(o0, Emit(Emit(o3, Copy(o.nt, av)), Jmp(o.nl + 2)), o.nl + 1, l, j0);
    CountExpr(gs, o4, e.els, l);
    FreshThen(o0, o4, o5, l, j0 + j1, 0);
    FreshCode(o0, o5, Copy(o.nt, bv), l, j0 + j1);
    FreshLabel(o0, Emit(o5, Copy(o.nt, bv)), o.nl + 2, l, j0 + j1);
    FreshLabels(o, o0, Emit(Emit(o5, Copy(o.nt, bv)), Label(o.nl + 2)), l, 0, j0 + j1 + j2);
  }

  // ----- statements -----

  /** How many of the nodes `ns` the table assigns label `l`. */
  function CaseUses(cases: seq<CaseEntry>, ns: seq<CaseNode>, l: nat): nat {
    if ns == [] then 0
    else One(FindCase(cases, ns[0].id, ns[0].e.None?) == Some(l)) + CaseUses(cases, ns[1..], l)
  }

  function NameUses(gotos: seq<(string, nat)>, xs: seq<string>, l: nat): nat {
    if xs == [] then 0 else One(Lookup(gotos, xs[0]) == Some(l)) + NameUses(gotos, xs[1..], l)
  }

  lemma {:induction false} CaseUsesAppend(cases: seq<CaseEntry>, a: seq<CaseNode>, b: seq<CaseNode>, l: nat)
    ensures CaseUses(cases, a + b, l) == CaseUses(cases, a, l) + CaseUses(cases, b, l)
  {
    if a == [] {
      assert a + b == b;
    } else {
      CaseUsesAppend(cases, a[1..], b, l);
      assert (a + b)[1..] == a[1..] + b;
    }
  }

  lemma {:induction false} NameUsesAppend(gotos: seq<(string, nat)>, a: seq<string>, b: seq<string>, l: nat)
    ensures NameUses(gotos, a + b, l) == NameUses(gotos, a, l) + NameUses(gotos, b, l)
  {
    if a == [] {
      assert a + b == b;
    } else {
      NameUsesAppend(gotos, a[1..], b, l);
      assert (a + b)[1..] == a[1..] + b;
    }
  }

  function Uses(env: Env, s: Stmt, l: nat): nat {
    CaseUses(env.cases, Cases(s), l) + NameUses(env.gotos, LabelNames(s), l)
  }

  /** In the table of its own switch, every node has its own label. */
  lemma {:induction false} OwnLabels(ns: seq<CaseNode>, nl: nat, cases: seq<CaseEntry>, l: nat)
    requires forall i :: 0 <= i < |ns| ==> FindCase(cases, ns[i].id, ns[i].e.None?) == Some(nl + i)
    ensures CaseUses(cases, ns, l) == One(nl <= l < nl + |ns|)
  {
    if ns != [] {
      forall i | 0 <= i < |ns[1..]|
        ensures FindCase(cases, ns[1..][i].id, ns[1..][i].e.None?) == Some(nl + 1 + i)
      {
        assert ns[1..][i] == ns[i + 1];
      }
      OwnLabels(ns[1..], nl + 1, cases, l);
    }
  }

  lemma TableLabels(b: Stmt, nl: nat, l: nat)
    requires DistinctNodes(Cases(b))
    ensures var c := CollectCases(b, Collected(nl, [], 0));
            CaseUses(c.cases, Cases(b), l) == One(nl <= l < c.nl)
  {
    var c := CollectCases(b, Collected(nl, [], 0));
    var ns := Cases(b);
    CollectIs(b, Collected(nl, [], 0));
    assert c.cases == Entries(ns, nl);
    forall i | 0 <= i < |ns|
      ensures FindCase(c.cases, ns[i].id, ns[i].e.None?) == Some(nl + i)
    {
      NodeNumber(ns, nl, i);
    }
    OwnLabels(ns, nl, c.cases, l);
  }

  lemma CountTest(gs: Scope, o: Out, test: Option<Expr>, exit: nat, l: nat)
    requires ScopeBelow(gs, o.nt)
    ensures Fresh(o, GenTest(gs, o, test, exit), l, 0)
  {
    hide Fresh;
    FreshSame(o, o, l);
    if test.Some? {
      var (o1, v) := GenExpr(gs, o, test.value);
      CountExpr(gs, o, test.value, l);
      FreshPlain(o, o1, o1, Jz(v, exit), l);
    }
  }

  /** Emitting a label after `o1`. */
  lemma {:induction false} CountTests(o: Out, sv: nat, cases: seq<CaseEntry>, l: nat)
    ensures Fresh(o, EmitTests(o, sv, cases), l, 0)
    decreases cases
  {
    hide Fresh;
    FreshSame(o, o, l);
    if cases != [] {
      if cases[0].isDefault {
        CountTests(o, sv, cases[1..], l);
      } else {
        var i := Bin(Eq, o.nt, Temp(sv), Imm(cases[0].val), false);
        var o1 := Emit(NewTemp(o), i);
        var o2 := Emit(o1, Jnz(Temp(o.nt), cases[0].target));
        FreshPlain(o, o, NewTemp(o), i, l);
        FreshCode(o, o1, Jnz(Temp(o.nt), cases[0].target), l, 0);
        CountTests(o2, sv, cases[1..], l);
        FreshThen(o, o2, EmitTests(o2, sv, cases[1..]), l, 0, 0);
      }
    }
  }

  lemma CountDispatch(gs: Scope, o: Out, e: Expr, c: Collected, end: nat, l: nat)
    requires ScopeBelow(gs, o.nt)
    ensures Fresh(o, GenDispatch(gs, o, e, c, end), l, 0)
  {
    hide Fresh;
    var (o1, v) := GenExpr(gs, o, e);
    var o2 := Emit(NewTemp(o1), Copy(o1.nt, v));
    var o3 := EmitTests(o2, o1.nt, c.cases);
    CountExpr(gs, o, e, l);
    FreshPlain(o, o1, NewTemp(o1), Copy(o1.nt, v), l);
    CountTests(o2, o1.nt, c.cases, l);
    FreshThen(o, o2, o3, l, 0, 0);
    FreshCode(o, o3, Jmp(if c.dflt != 0 then c.dflt else end), l, 0);
  }

  /**
   A statement emits every label of the tables once for each of its own nodes that carries it,
   and every label it hands out itself at most once.
   */
  lemma {:induction false} CountStmt(env: Env, gs: Scope, o: Out, s: Stmt, l: nat)
    requires ScopeBelow(gs, o.nt) && Formed(s)
    ensures Fresh(o, GenStmt(env, gs, o, s).0, l, Uses(env, s, l))
    decreases s, 3
  {
    hide Fresh, DistinctNodes, CaseUses, NameUses, Count, Extends, GenIf, GenWhile, GenDoWhile, GenFor, GenSwitch;
    FreshSame(o, o, l);
    UsesNone(env, l);
    match s
    case End =>
    case Then(_, _) => CountThen(env, gs, o, s, l);
    case Compound(b) => CountStmt(env, gs, o, b, l);
    case ExprStmt(e) => CountExpr(gs, o, e, l);
    case Decl(_, _, _) => CountDecl(gs, o, s, l);
    case If(_, _, _) => CountIf(env, gs, o, s, l);
    case While(_, _) => CountWhile(env, gs, o, s, l);
    case DoWhile(_, _) => CountDo(env, gs, o, s, l);
    case For(_, _, _, _) => CountFor(env, gs, o, s, l);
    case Return(e) =>
      if e.None? {
        FreshCode(o, o, Ret(None), l, 0);
      } else {
        var (o1, v) := GenExpr(gs, o, e.value);
        CountExpr(gs, o, e.value, l);
        FreshCode(o, o1, Ret(Some(v)), l, 0);
      }
    case Break => FreshCode(o, o, Jmp(env.brk), l, 0);
    case Continue => FreshCode(o, o, Jmp(env.cont), l, 0);
    case Switch(_, _) => CountSwitch(env, gs, o, s, l);
    case Case(id, e, b) => CountLabelled(env, gs, o, s, [CaseNode(id, Some(e))], [], b, l);
    case Default(id, b) => CountLabelled(env, gs, o, s, [CaseNode(id, None)], [], b, l);
    case Goto(x) => if Lookup(env.gotos, x).Some? { FreshCode(o, o, Jmp(Lookup(env.gotos, x).value), l, 0); }
    case Labelled(x, b) => CountLabelled(env, gs, o, s, [], [x], b, l);
  }

  lemma {:induction false} CountThen(env: Env, gs: Scope, o: Out, s: Stmt, l: nat)
    requires s.Then? && ScopeBelow(gs, o.nt) && Formed(s)
    ensures Fresh(o, GenStmt(env, gs, o, s).0, l, Uses(env, s, l))
    decreases s, 0
  {
    hide Fresh, DistinctNodes, CaseUses, NameUses, Count, Extends;
    var (o1, gs1) := GenStmt(env, gs, o, s.s);
    CountStmt(env, gs, o, s.s, l);
    CountStmt(env, gs1, o1, s.rest, l);
    FreshThen(o, o1, GenStmt(env, gs1, o1, s.rest).0, l, Uses(env, s.s, l), Uses(env, s.rest, l));
    UsesBoth(env, Cases(s.s), Cases(s.rest), LabelNames(s.s), LabelNames(s.rest), l);
  }

  lemma UsesNone(env: Env, l: nat)
    ensures CaseUses(env.cases, [], l) == 0 && NameUses(env.gotos, [], l) == 0
  {
  }

  lemma UsesBoth(env: Env, a: seq<CaseNode>, b: seq<CaseNode>, xs: seq<string>, ys: seq<string>, l: nat)
    ensures CaseUses(env.cases, a + b, l) == CaseUses(env.cases, a, l) + CaseUses(env.cases, b, l)
    ensures NameUses(env.gotos, xs + ys, l) == NameUses(env.gotos, xs, l) + NameUses(env.gotos, ys, l)
  {
    CaseUsesAppend(env.cases, a, b, l);
    NameUsesAppend(env.gotos, xs, ys, l);
  }

  /** The label that a `case`, `default` or named label emits is its own use of the tables. */
  lemma LabelUse(env: Env, s: Stmt, ns: seq<CaseNode>, xs: seq<string>, b: Stmt, at: Option<nat>, l: nat)
    requires Cases(s) == ns + Cases(b) && LabelNames(s) == xs + LabelNames(b)
    requires |ns| + |xs| == 1
    requires at == if |ns| == 1 then FindCase(env.cases, ns[0].id, ns[0].e.None?) else Lookup(env.gotos, xs[0])
    ensures Uses(env, s, l) == One(at == Some(l)) + Uses(env, b, l)
  {
    assert CaseUses(env.cases, ns, l) + NameUses(env.gotos, xs, l) == One(at == Some(l));
    hide CaseUses, NameUses;
    UsesBoth(env, ns, Cases(b), xs, LabelNames(b), l);
  }

  lemma {:induction false} CountLabelled(env: Env, gs: Scope, o: Out, s: Stmt, ns: seq<CaseNode>, xs: seq<string>,
                                         b: Stmt, l: nat)
    requires ScopeBelow(gs, o.nt) && Formed(b)
    requires Cases(s) == ns + Cases(b) && LabelNames(s) == xs + LabelNames(b)
    requires |ns| + |xs| == 1
    requires var at := if |ns| == 1 then FindCase(env.cases, ns[0].id, ns[0].e.None?) else Lookup(env.gotos, xs[0]);
             GenStmt(env, gs, o, s) == GenStmt(env, gs, EmitOptLabel(o, at), b)
    ensures Fresh(o, GenStmt(env, gs, o, s).0, l, Uses(env, s, l))
    decreases b, 4
  {
    hide Fresh, Uses, Count, Extends, Formed, GenStmt, Cases, LabelNames, FindCase, Lookup;
    var at := if |ns| == 1 then FindCase(env.cases, ns[0].id, ns[0].e.None?) else Lookup(env.gotos, xs[0]);
    LabelUse(env, s, ns, xs, b, at, l);
    var o1 := EmitOptLabel(o, at);
    FreshSame(o, o, l);
    if at.Some? {
      FreshLabel(o, o, at.value, l, 0);
    }
    CountStmt(env, gs, o1, b, l);
    FreshThen(o, o1, GenStmt(env, gs, o1, b).0, l, One(at == Some(l)), Uses(env, b, l));
  }

  lemma CountDecl(gs: Scope, o: Out, s: Stmt, l: nat)
    requires s.Decl? && ScopeBelow(gs, o.nt)
    ensures Fresh(o, GenDecl(gs, o, s).0, l, 0)
  {
    hide Fresh;
    var o1 := GenAlloca(o, s.id);
    FreshSame(o, NewTemp(o), l);
    FreshCode(o, NewTemp(o), Alloca(o.nt, 4, 4), l, 0);
    FreshSame(Emit(NewTemp(o), Alloca(o.nt, 4, 4)), o1, l);
    FreshThen(o, Emit(NewTemp(o), Alloca(o.nt, 4, 4)), o1, l, 0, 0);
    if s.init.Some? {
      var gs1 := [(s.name, o.nt)] + gs;
      var (o2, v) := GenExpr(gs1, o1, s.init.value);
      CountExpr(gs1, o1, s.init.value, l);
      FreshThen(o, o1, o2, l, 0, 0);
      FreshCode(o, o2, Store(Temp(o.nt), v, 4), l, 0);
    }
  }

  lemma {:induction false} CountIf(env: Env, gs: Scope, o: Out, s: Stmt, l: nat)
    requires s.If? && ScopeBelow(gs, o.nt) && Formed(s)
    ensures Fresh(o, GenIf(env, gs, o, s).0, l, Uses(env, s, l))
    decreases s, 0
  {
    hide Fresh, DistinctNodes, CaseUses, NameUses, Count, One, Extends;
    FewLabels(o.nl, l);
    var oL := NewLabels(o, 2);
    var oT := GenTest(gs, oL, Some(s.cond), o.nl);
    var (o2, gs2) := IfThen(env, gs, o, s);
    var ua, j0, j1 := Uses(env, s.thn, l), One(l == o.nl), One(l == o.nl + 1);
    CountTest(gs, oL, Some(s.cond), o.nl, l);
    CountStmt(env, gs, oT, s.thn, l);
    FreshThen(oL, oT, o2, l, 0, ua);
    if s.els.None? {
      FreshLabel(oL, o2, o.nl, l, ua);
      FreshLabels(o, oL, Emit(o2, Label(o.nl)), l, ua, j0);
      assert Cases(s) == Cases(s.thn) && LabelNames(s) == LabelNames(s.thn);
    } else {
      var oE := Emit(Emit(o2, Jmp(o.nl + 1)), Label(o.nl));
      var ub, o5 := Uses(env, s.els.value, l), GenIf(env, gs, o, s).0;
      FreshCode(oL, o2, Jmp(o.nl + 1), l, ua);
      FreshLabel(oL, Emit(o2, Jmp(o.nl + 1)), o.nl, l, ua);
      CountStmt(env, gs2, oE, s.els.value, l);
      FreshLabel(oE, IfElse(env, gs, o, s).0, o.nl + 1, l, ub);
      FreshThen(oL, oE, o5, l, ua + j0, ub + j1);
      FreshLabels(o, oL, o5, l, ua + ub, j0 + j1);
      UsesIf(env, s, l);
    }
  }

  lemma UsesIf(env: Env, s: Stmt, l: nat)
    requires s.If? && s.els.Some?
    ensures Uses(env, s, l) == Uses(env, s.thn, l) + Uses(env, s.els.value, l)
  {
    UsesBoth(env, Cases(s.thn), Cases(s.els.value), LabelNames(s.thn), LabelNames(s.els.value), l);
  }

  lemma {:induction false} CountWhile(env: Env, gs: Scope, o: Out, s: Stmt, l: nat)
    requires s.While? && ScopeBelow(gs, o.nt) && Formed(s)
    ensures Fresh(o, GenWhile(env, gs, o, s).0, l, Uses(env, s, l))
    decreases s, 0
  {
    hide Fresh, DistinctNodes, CaseUses, NameUses, Count, One, Extends;
    FewLabels(o.nl, l);
    var oL := NewLabels(o, 3);
    var oP := Emit(oL, Label(o.nl));
    var oT, oS := GenTest(gs, oP, Some(s.cond), o.nl + 2), WhileStart(gs, o, s);
    var oB, u := WhileBody(env, gs, o, s).0, Uses(env, s.body, l);
    var j0, j1, j2 := One(l == o.nl), One(l == o.nl + 1), One(l == o.nl + 2);
    FreshSame(oL, oL, l);
    FreshLabel(oL, oL, o.nl, l, 0);
    CountTest(gs, oP, Some(s.cond), o.nl + 2, l);
    FreshThen(oL, oP, oT, l, j0, 0);
    FreshLabel(oL, oT, o.nl + 1, l, j0);
    CountStmt(env.(brk := o.nl + 2, cont := o.nl), gs, oS, s.body, l);
    FreshThen(oL, oS, oB, l, j0 + j1, u);
    FreshCode(oL, oB, Jmp(o.nl), l, j0 + j1 + u);
    FreshLabel(oL, Emit(oB, Jmp(o.nl)), o.nl + 2, l, j0 + j1 + u);
    FreshLabels(o, oL, GenWhile(env, gs, o, s).0, l, u, j0 + j1 + j2);
  }

  lemma {:induction false} CountDo(env: Env, gs: Scope, o: Out, s: Stmt, l: nat)
    requires s.DoWhile? && ScopeBelow(gs, o.nt) && Formed(s)
    ensures Fresh(o, GenDoWhile(env, gs, o, s).0, l, Uses(env, s, l))
    decreases s, 0
  {
    hide Fresh, DistinctNodes, CaseUses, NameUses, Count, One, Extends;
    FewLabels(o.nl, l);
    var oL := NewLabels(o, 3);
    var oP := Emit(oL, Label(o.nl));
    var (oB, gsB) := DoBody(env, gs, o, s);
    var oC := Emit(oB, Label(o.nl + 1));
    var (oT, v) := DoTest(env, gs, o, s);
    var u := Uses(env, s.body, l);
    var j0, j1, j2 := One(l == o.nl), One(l == o.nl + 1), One(l == o.nl + 2);
    FreshSame(oL, oL, l);
    FreshLabel(oL, oL, o.nl, l, 0);
    CountStmt(env.(brk := o.nl + 2, cont := o.nl + 1), gs, oP, s.body, l);
    FreshThen(oL, oP, oB, l, j0, u);
    FreshLabel(oL, oB, o.nl + 1, l, j0 + u);
    CountExpr(gsB, oC, s.cond, l);
    FreshThen(oL, oC, oT, l, j0 + u + j1, 0);
    FreshCode(oL, oT, Jnz(v, o.nl), l, j0 + u + j1);
    FreshLabel(oL, Emit(oT, Jnz(v, o.nl)), o.nl + 2, l, j0 + u + j1);
    FreshLabels(o, oL, GenDoWhile(env, gs, o, s).0, l, u, j0 + j1 + j2);
  }

  lemma {:induction false} CountFor(env: Env, gs: Scope, o: Out, s: Stmt, l: nat)
    requires s.For? && ScopeBelow(gs, o.nt) && Formed(s)
    ensures Fresh(o, GenFor(env, gs, o, s).0, l, Uses(env, s, l))
    decreases s, 2
  {
    hide Fresh, DistinctNodes, CaseUses, NameUses, Count, One, Extends, GenForLoop;
    FewLabels(o.nl, l);
    var env1, oL := ForEnv(env, o.nl), NewLabels(o, 4);
    var (o1, gs1) := ForInit(env, gs, o, s);
    var u := Uses(env, s.body, l);
    var j0, j1, j2, j3 := One(l == o.nl), One(l == o.nl + 1), One(l == o.nl + 2), One(l == o.nl + 3);
    SimpleUses(env1, s.start, l);
    CountStmt(env1, gs, oL, s.start, l);
    var oE := GenForLoop(env1, gs1, o1, s, o.nl);
    CountForLoop(env1, gs1, o1, s, o.nl, l);
    FreshThen(oL, o1, oE, l, 0, j0 + j1 + u + j2 + j3);
    FreshLabels(o, oL, oE, l, u, j0 + j1 + j2 + j3);
  }

  lemma {:induction false} CountForLoop(env: Env, gs: Scope, o: Out, s: Stmt, nl: nat, l: nat)
    requires s.For? && ScopeBelow(gs, o.nt) && Formed(s)
    ensures Fresh(o, GenForLoop(env, gs, o, s, nl), l,
                  One(l == nl) + One(l == nl + 1) + Uses(env, s.body, l) + One(l == nl + 2) + One(l == nl + 3))
    decreases s, 1
  {
    hide Fresh, DistinctNodes, Uses, Count, One, Extends;
    var oP := Emit(o, Label(nl));
    var oT, oS := GenTest(gs, oP, s.test, nl + 3), ForStart(gs, o, s, nl);
    var (oB, gsB) := ForBody(env, gs, o, s, nl);
    var oC, oI := Emit(oB, Label(nl + 2)), ForIncr(env, gs, o, s, nl);
    var u := Uses(env, s.body, l);
    var j0, j1, j2 := One(l == nl), One(l == nl + 1), One(l == nl + 2);
    FreshSame(o, o, l);
    FreshLabel(o, o, nl, l, 0);
    CountTest(gs, oP, s.test, nl + 3, l);
    FreshThen(o, oP, oT, l, j0, 0);
    FreshLabel(o, oT, nl + 1, l, j0);
    CountStmt(env, gs, oS, s.body, l);
    FreshThen(o, oS, oB, l, j0 + j1, u);
    FreshLabel(o, oB, nl + 2, l, j0 + j1 + u);
    FreshSame(oC, oC, l);
    if s.incr.Some? {
      CountExpr(gsB, oC, s.incr.value, l);
    }
    FreshThen(o, oC, oI, l, j0 + j1 + u + j2, 0);
    FreshCode(o, oI, Jmp(nl), l, j0 + j1 + u + j2);
    FreshLabel(o, Emit(oI, Jmp(nl)), nl + 3, l, j0 + j1 + u + j2);
  }

  lemma {:induction false} SimpleUses(env: Env, s: Stmt, l: nat)
    requires SimpleInit(s)
    ensures Uses(env, s, l) == 0 && Formed(s) && Cases(s) == [] && LabelNames(s) == []
    decreases s
  {
    if s.Then? {
      SimpleUses(env, s.s, l);
      SimpleUses(env, s.rest, l);
    }
  }

  lemma {:induction false} CountSwitch(env: Env, gs: Scope, o: Out, s: Stmt, l: nat)
    requires s.Switch? && ScopeBelow(gs, o.nt) && Formed(s)
    ensures Fresh(o, GenSwitch(env, gs, o, s).0, l, Uses(env, s, l))
    decreases s, 0
  {
    hide Fresh;
    var c, env1, oS := SwitchTable(o, s), SwitchEnv(env, o, s), SwitchStart(gs, o, s);
    var oN := o.(nl := c.nl);
    var oB, u := SwitchBody(env, gs, o, s).0, NameUses(env.gotos, LabelNames(s.body), l);
    var jc, je := One(o.nl + 1 <= l < c.nl), One(l == o.nl);
    TableLabels(s.body, o.nl + 1, l);
    assert Uses(env1, s.body, l) == jc + u;
    CountDispatch(gs, oN, s.e, c, o.nl, l);
    CountStmt(env1, gs, oS, s.body, l);
    FreshThen(oN, oS, oB, l, 0, jc + u);
    FreshLabel(oN, oB, o.nl, l, jc + u);
    FreshLabels(o, oN, GenSwitch(env, gs, o, s).0, l, u, jc + je);
  }

  // ----- a whole function -----

  /** Label `i` of the function gets number `nl + i`; later labels stand nearer the head. */
  function NameEntries(xs: seq<string>, nl: nat): (es: seq<(string, nat)>)
    ensures |es| == |xs|
    ensures forall i :: 0 <= i < |xs| ==> es[|xs| - 1 - i] == (xs[i], nl + i)
  {
    if xs == [] then []
    else
      assert forall i :: 1 <= i < |xs| ==> xs[i] == xs[1..][i - 1];
      NameEntries(xs[1..], nl + 1) + [(xs[0], nl)]
  }

  /** `r` is the table `acc` with the labels `xs` entered, each with the next free number. */
  predicate Names(xs: seq<string>, nl: nat, acc: seq<(string, nat)>, r: (nat, seq<(string, nat)>)) {
    r.0 == nl + |xs| && r.1 == NameEntries(xs, nl) + acc
  }

  lemma NamesNone(nl: nat, acc: seq<(string, nat)>)
    ensures Names([], nl, acc, (nl, acc))
  {
  }

  lemma NamesOne(x: string, nl: nat, acc: seq<(string, nat)>)
    ensures Names([x], nl, acc, (nl + 1, [(x, nl)] + acc))
  {
    assert [x][1..] == [];
  }

  lemma NamesBoth(xs: seq<string>, ys: seq<string>, nl: nat, acc: seq<(string, nat)>,
                  r1: (nat, seq<(string, nat)>), r2: (nat, seq<(string, nat)>))
    requires Names(xs, nl, acc, r1) && Names(ys, r1.0, r1.1, r2)
    ensures Names(xs + ys, nl, acc, r2)
  {
    NameEntriesAppend(xs, ys, nl);
  }

  lemma {:induction false} NameEntriesAppend(a: seq<string>, b: seq<string>, nl: nat)
    ensures NameEntries(a + b, nl) == NameEntries(b, nl + |a|) + NameEntries(a, nl)
  {
    if a == [] {
      assert a + b == b;
    } else {
      NameEntriesAppend(a[1..], b, nl + 1);
      assert (a + b)[1..] == a[1..] + b;
    }
  }

  lemma {:induction false} CollectLabelsIs(s: Stmt, nl: nat, acc: seq<(string, nat)>)
    ensures Names(LabelNames(s), nl, acc, CollectLabels(s, nl, acc))
    decreases s
  {
    hide Names;
    NamesNone(nl, acc);
    match s
    case Labelled(x, b) =>
      NamesOne(x, nl, acc);
      CollectLabelsIs(b, nl + 1, [(x, nl)] + acc);
      NamesBoth([x], LabelNames(b), nl, acc, (nl + 1, [(x, nl)] + acc), CollectLabels(s, nl, acc));
    case Then(a, b) =>
      var r := CollectLabels(a, nl, acc);
      CollectLabelsIs(a, nl, acc);
      CollectLabelsIs(b, r.0, r.1);
      NamesBoth(LabelNames(a), LabelNames(b), nl, acc, r, CollectLabels(s, nl, acc));
    case If(_, a, b) =>
      var r := CollectLabels(a, nl, acc);
      CollectLabelsIs(a, nl, acc);
      if b.Some? {
        CollectLabelsIs(b.value, r.0, r.1);
        NamesBoth(LabelNames(a), LabelNames(b.value), nl, acc, r, CollectLabels(s, nl, acc));
      } else {
        assert LabelNames(s) == LabelNames(a);
      }
    case Compound(b) => CollectLabelsIs(b, nl, acc);
    case While(_, b) => CollectLabelsIs(b, nl, acc);
    case DoWhile(b, _) => CollectLabelsIs(b, nl, acc);
    case For(_, _, _, b) => CollectLabelsIs(b, nl, acc);
    case Switch(_, b) => CollectLabelsIs(b, nl, acc);
    case Case(_, _, b) => CollectLabelsIs(b, nl, acc);
    case Default(_, b) => CollectLabelsIs(b, nl, acc);
    case _ =>
  }
}
