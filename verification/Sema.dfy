/**
 The statement checks of semantic analysis, and that they reject exactly what lowering would drop:
 the generator emits nothing for a `break`, `continue` or `goto` without a target, so one jump is
 missing from the code for every such statement the checker reports.
 */
module Sema {
  import opened Wrappers
  import opened Ast
  import opened Ir
  import opened IrGen
  import opened Semantics
  import opened Switches
  import opened Labels
  import opened Functions

  /** The search of `label_exists`: along a statement list, into every part that may hold a label. */
  method LabelExists(s: Stmt, x: string) returns (found: bool)
    ensures found <==> x in LabelNames(s)
    decreases s
  {
    var n := s;
    while n.Then?
      invariant x in LabelNames(s) <==> x in LabelNames(n)
      invariant n == s || n < s
      decreases n
    {
      found := LabelExists(n.s, x);
      if found { return; }
      n := n.rest;
    }
    found := false;
    match n
    case Labelled(y, b) =>
      if y == x { return true; }
      found := LabelExists(b, x);
    case Compound(b) => found := LabelExists(b, x);
    case If(_, a, b) =>
      found := LabelExists(a, x);
      if !found && b.Some? {
        found := LabelExists(b.value, x);
      }
    case While(_, b) => found := LabelExists(b, x);
    case DoWhile(b, _) => found := LabelExists(b, x);
    case For(_, _, _, b) => found := LabelExists(b, x);
    case Switch(_, b) => found := LabelExists(b, x);
    case Case(_, _, b) => found := LabelExists(b, x);
    case Default(_, b) => found := LabelExists(b, x);
    case _ =>
  }

  // ----- what is reported -----

  /** `break`, `continue` and `goto` statements without a target, under `loops` loops and `sws` switches. */
  function Misplaced(names: seq<string>, loops: nat, sws: nat, s: Stmt): nat
    decreases s
  {
    match s
    case Then(a, b) => Misplaced(names, loops, sws, a) + Misplaced(names, loops, sws, b)
    case Compound(b) => Misplaced(names, loops, sws, b)
    case If(_, a, b) =>
      Misplaced(names, loops, sws, a) + if b.Some? then Misplaced(names, loops, sws, b.value) else 0
    case While(_, b) => Misplaced(names, loops + 1, sws, b)
    case DoWhile(b, _) => Misplaced(names, loops + 1, sws, b)
    case For(start, _, _, b) => Misplaced(names, loops, sws, start) + Misplaced(names, loops + 1, sws, b)
    case Switch(_, b) => Misplaced(names, loops, sws + 1, b)
    case Case(_, _, b) => Misplaced(names, loops, sws, b)
    case Default(_, b) => Misplaced(names, loops, sws, b)
    case Labelled(_, b) => Misplaced(names, loops, sws, b)
    case Break => One(loops == 0 && sws == 0)
    case Continue => One(loops == 0)
    case Goto(x) => One(x !in names)
    case _ => 0
  }

  /** The checker's state; `body` is the function under way. */
  class Checker {
    const body: Stmt
    var loopDepth: nat
    var switchDepth: nat
    var errors: nat

    constructor (body: Stmt)
      ensures this.body == body && loopDepth == switchDepth == errors == 0
    {
      this.body := body;
      loopDepth, switchDepth, errors := 0, 0, 0;
    }

    method SemaError()
      modifies this`errors
      ensures errors == old(errors) + 1
    {
      errors := errors + 1;
    }

    /** Outside every switch the checker also reports each `case` and `default`. */
    method CheckStmt(s: Stmt)
      requires ForsSimple(s)
      modifies this
      ensures loopDepth == old(loopDepth) && switchDepth == old(switchDepth)
      ensures errors == old(errors) + Misplaced(LabelNames(body), loopDepth, switchDepth, s)
                        + if switchDepth == 0 then |Cases(s)| else 0
      decreases s
    {
      match s
      case Then(a, b) => CheckStmt(a); CheckStmt(b);
      case Compound(b) => CheckStmt(b);
      case If(_, a, b) =>
        CheckStmt(a);
        if b.Some? { CheckStmt(b.value); }
      case While(_, b) =>
        loopDepth := loopDepth + 1;
        CheckStmt(b);
        loopDepth := loopDepth - 1;
      case DoWhile(b, _) =>
        loopDepth := loopDepth + 1;
        CheckStmt(b);
        loopDepth := loopDepth - 1;
      case For(start, _, _, b) =>
        SimpleChecks(LabelNames(body), loopDepth, switchDepth, start);
        CheckStmt(start);
        loopDepth := loopDepth + 1;
        CheckStmt(b);
        loopDepth := loopDepth - 1;
      case Switch(_, b) =>
        switchDepth := switchDepth + 1;
        CheckStmt(b);
        switchDepth := switchDepth - 1;
      case Case(_, _, b) =>
        if switchDepth == 0 { SemaError(); }
        CheckStmt(b);
      case Default(_, b) =>
        if switchDepth == 0 { SemaError(); }
        CheckStmt(b);
      case Labelled(_, b) => CheckStmt(b);
      case Break =>
        if loopDepth == 0 && switchDepth == 0 { SemaError(); }
      case Continue =>
        if loopDepth == 0 { SemaError(); }
      case Goto(x) =>
        var found := LabelExists(body, x);
        if !found { SemaError(); }
      case _ =>
    }
  }

  /** What the parser builds: the first clause of a `for` is an expression or declarations. */
  predicate ForsSimple(s: Stmt) {
    match s
    case Then(a, b) => ForsSimple(a) && ForsSimple(b)
    case Compound(b) => ForsSimple(b)
    case If(_, a, b) => ForsSimple(a) && (b.Some? ==> ForsSimple(b.value))
    case While(_, b) => ForsSimple(b)
    case DoWhile(b, _) => ForsSimple(b)
    case For(start, _, _, b) => SimpleInit(start) && ForsSimple(b)
    case Switch(_, b) => ForsSimple(b)
    case Case(_, _, b) => ForsSimple(b)
    case Default(_, b) => ForsSimple(b)
    case Labelled(_, b) => ForsSimple(b)
    case _ => true
  }

  lemma {:induction false} SimpleChecks(names: seq<string>, loops: nat, sws: nat, s: Stmt)
    requires SimpleInit(s)
    ensures Misplaced(names, loops, sws, s) == 0 && Cases(s) == [] && Transfers(s) == 0 && ForsSimple(s)
    decreases s
  {
    if s.Then? {
      SimpleChecks(names, loops, sws, s.s);
      SimpleChecks(names, loops, sws, s.rest);
    }
  }

  // ----- what is emitted -----

  /** The unconditional jumps in a piece of code. */
  function Jumps(code: seq<Instr>): nat {
    if code == [] then 0 else Jumps(code[..|code| - 1]) + One(code[|code| - 1].Jmp?)
  }

  /** The `break`, `continue` and `goto` statements of a statement. */
  function Transfers(s: Stmt): nat {
    match s
    case Then(a, b) => Transfers(a) + Transfers(b)
    case Compound(b) => Transfers(b)
    case If(_, a, b) => Transfers(a) + if b.Some? then Transfers(b.value) else 0
    case While(_, b) => Transfers(b)
    case DoWhile(b, _) => Transfers(b)
    case For(start, _, _, b) => Transfers(start) + Transfers(b)
    case Switch(_, b) => Transfers(b)
    case Case(_, _, b) => Transfers(b)
    case Default(_, b) => Transfers(b)
    case Labelled(_, b) => Transfers(b)
    case Break => 1
    case Continue => 1
    case Goto(_) => 1
    case _ => 0
  }

  /** The jumps that the evaluation of an expression needs. */
  function ExprJumps(e: Expr): nat {
    match e
    case Unary(_, a) => ExprJumps(a)
    case Binary(_, a, b) => ExprJumps(a) + ExprJumps(b)
    case LogAnd(a, b) => ExprJumps(a) + ExprJumps(b) + 2
    case LogOr(a, b) => ExprJumps(a) + ExprJumps(b) + 1
    case Assign(_, a) => ExprJumps(a)
    case CompoundAssign(_, _, a) => ExprJumps(a)
    case Ternary(c, a, b) => ExprJumps(c) + ExprJumps(a) + ExprJumps(b) + 1
    case Comma(a, b) => ExprJumps(a) + ExprJumps(b)
    case _ => 0
  }

  function OptJumps(e: Option<Expr>): nat {
    if e.Some? then ExprJumps(e.value) else 0
  }

  /** The jumps that belong to the statement forms themselves: an `else` skipped, a loop repeated, a switch left. */
  function FormJumps(s: Stmt): nat {
    match s
    case Then(a, b) => FormJumps(a) + FormJumps(b)
    case Compound(b) => FormJumps(b)
    case ExprStmt(e) => ExprJumps(e)
    case Decl(_, _, e) => OptJumps(e)
    case If(c, a, b) => ExprJumps(c) + FormJumps(a) + if b.Some? then 1 + FormJumps(b.value) else 0
    case While(c, b) => ExprJumps(c) + FormJumps(b) + 1
    case DoWhile(b, c) => FormJumps(b) + ExprJumps(c)
    case For(start, c, i, b) => FormJumps(start) + OptJumps(c) + FormJumps(b) + OptJumps(i) + 1
    case Return(e) => OptJumps(e)
    case Switch(e, b) => ExprJumps(e) + 1 + FormJumps(b)
    case Case(_, _, b) => FormJumps(b)
    case Default(_, b) => FormJumps(b)
    case Labelled(_, b) => FormJumps(b)
    case _ => 0
  }

  lemma OneMore(o: Out, i: Instr)
    ensures Jumps(Emit(o, i).code) == Jumps(o.code) + One(i.Jmp?)
  {
    assert (o.code + [i])[..|o.code|] == o.code;
  }

  lemma {:induction false} JumpsAppend(a: seq<Instr>, b: seq<Instr>)
    ensures Jumps(a + b) == Jumps(a) + Jumps(b)
  {
    if b == [] {
      assert a + b == a;
    } else {
      JumpsAppend(a, b[..|b| - 1]);
      assert (a + b)[..|a + b| - 1] == a + b[..|b| - 1];
    }
  }

  lemma OneJump(i: Instr)
    ensures Jumps([i]) == One(i.Jmp?)
  {
    assert [i][..0] == [];
  }

  lemma FinishJumps(o: Out, rv: Operand, res: nat, nl: nat)
    ensures Jumps(FinishAnd(o, rv, res, nl).code) == Jumps(o.code) + 2
    ensures Jumps(FinishOr(o, rv, res, nl).code) == Jumps(o.code) + 1
  {
    hide Jumps;
    var l1, l2 := [Jnz(rv, nl + 2), Jmp(nl + 1), Label(nl + 1), Copy(res, Imm(0))],
                  [Jnz(rv, nl + 2), Copy(res, Imm(0))];
    var m1, m2 := [Jmp(nl), Label(nl + 2), Copy(res, Imm(1)), Label(nl)], [Jmp(nl), Label(nl + 2), Copy(res, Imm(1)), Label(nl)];
    FewJumps(l1);
    FewJumps(l2);
    FewJumps(m1);
    JumpsAppend(l1, m1);
    JumpsAppend(l2, m2);
    JumpsAppend(o.code, l1 + m1);
    JumpsAppend(o.code, l2 + m2);
    assert FinishAnd(o, rv, res, nl).code == o.code + (l1 + m1);
    assert FinishOr(o, rv, res, nl).code == o.code + (l2 + m2);
  }

  lemma FewJumps(c: seq<Instr>)
    requires |c| == 2 || |c| == 4
    ensures Jumps(c) == One(c[0].Jmp?) + One(c[1].Jmp?) + if |c| == 2 then 0 else One(c[2].Jmp?) + One(c[3].Jmp?)
  {
    OneJump(c[0]);
    OneJump(c[1]);
    JumpsAppend([c[0]], [c[1]]);
    if |c| == 2 {
      assert c == [c[0]] + [c[1]];
    } else {
      OneJump(c[2]);
      OneJump(c[3]);
      JumpsAppend([c[2]], [c[3]]);
      JumpsAppend([c[0]] + [c[1]], [c[2]] + [c[3]]);
      assert c == ([c[0]] + [c[1]]) + ([c[2]] + [c[3]]);
    }
  }

  lemma {:induction false} ExprEmits(gs: Scope, o: Out, e: Expr)
    requires ScopeBelow(gs, o.nt)
    ensures Jumps(GenExpr(gs, o, e).0.code) == Jumps(o.code) + ExprJumps(e)
    decreases e
  {
    hide Jumps, Extends;
    match e
    case IntLit(_) =>
    case Ident(x) => OneMore(NewTemp(o), Load(o.nt, Address(gs, x), 4, true));
    case Unary(op, a) =>
      var (o1, v) := GenExpr(gs, o, a);
      ExprEmits(gs, o, a);
      OneMore(NewTemp(o1), Un(Neg, o1.nt, v));
      OneMore(NewTemp(o1), Un(Not, o1.nt, v));
      OneMore(NewTemp(o1), Bin(Eq, o1.nt, v, Imm(0), false));
    case PreIncDec(inc, x) => StepEmits(gs, o, x, inc, false);
    case PostIncDec(inc, x) => StepEmits(gs, o, x, inc, true);
    case Binary(op, a, b) =>
      var (o1, lv) := GenExpr(gs, o, a);
      var (o2, rv) := GenExpr(gs, o1, b);
      ExprEmits(gs, o, a);
      ExprEmits(gs, o1, b);
      OneMore(NewTemp(o2), Bin(op, o2.nt, lv, rv, false));
    case LogAnd(a, b) => LogicalEmits(gs, o, e);
    case LogOr(a, b) => LogicalEmits(gs, o, e);
    case Assign(x, a) =>
      var (o1, v) := GenExpr(gs, o, a);
      ExprEmits(gs, o, a);
      OneMore(o1, Store(Address(gs, x), v, 4));
    case CompoundAssign(op, x, a) =>
      var o1 := GenLoad(o, Address(gs, x));
      var (o2, rv) := GenExpr(gs, o1, a);
      OneMore(NewTemp(o), Load(o.nt, Address(gs, x), 4, true));
      ExprEmits(gs, o1, a);
      var i := Bin(op, o2.nt, Temp(o.nt), rv, false);
      OneMore(NewTemp(o2), i);
      OneMore(Emit(NewTemp(o2), i), Store(Address(gs, x), Temp(o2.nt), 4));
    case Ternary(_, _, _) => TernaryEmits(gs, o, e);
    case Comma(a, b) =>
      ExprEmits(gs, o, a);
      ExprEmits(gs, GenExpr(gs, o, a).0, b);
  }

  lemma StepEmits(gs: Scope, o: Out, x: string, inc: bool, post: bool)
    requires ScopeBelow(gs, o.nt)
    ensures Jumps(GenStep(gs, o, x, inc, post).0.code) == Jumps(o.code)
  {
    hide Jumps;
    var addr := Address(gs, x);
    var o1 := GenLoad(o, addr);
    var i := Bin(if inc then Add else Sub, o1.nt, Temp(o.nt), Imm(1), false);
    OneMore(NewTemp(o), Load(o.nt, addr, 4, true));
    OneMore(NewTemp(o1), i);
    OneMore(Emit(NewTemp(o1), i), Store(addr, Temp(o1.nt), 4));
  }

  lemma {:induction false} LogicalEmits(gs: Scope, o: Out, e: Expr)
    requires ScopeBelow(gs, o.nt) && (e.LogAnd? || e.LogOr?)
    ensures Jumps(GenExpr(gs, o, e).0.code) == Jumps(o.code) + ExprJumps(e)
    decreases e, 0
  {
    hide Jumps, Extends;
    var o0 := NewLabels(NewTemp(o), 3);
    var (o1, lv) := GenExpr(gs, o0, e.left);
    var i := if e.LogAnd? then Jz(lv, o.nl + 1) else Jnz(lv, o.nl + 2);
    var (o3, rv) := GenExpr(gs, Emit(o1, i), e.right);
    ExprEmits(gs, o0, e.left);
    OneMore(o1, i);
    ExprEmits(gs, Emit(o1, i), e.right);
    FinishJumps(o3, rv, o.nt, o.nl);
  }

  lemma {:induction false} TernaryEmits(gs: Scope, o: Out, e: Expr)
    requires ScopeBelow(gs, o.nt) && e.Ternary?
    ensures Jumps(GenExpr(gs, o, e).0.code) == Jumps(o.code) + ExprJumps(e)
    decreases e, 0
  {
    hide Jumps, Extends;
    var o0 := NewTemp(NewLabels(o, 3));
    var (o1, cv) := GenExpr(gs, o0, e.cond);
    var oA := Emit(o1, Jz(cv, o.nl + 1));
    var o2 := Emit(oA, Label(o.nl));
    var (o3, av) := GenExpr(gs, o2, e.thn);
    var oB := Emit(o3, Copy(o.nt, av));
    var oC := Emit(oB, Jmp(o.nl + 2));
    var o4 := Emit(oC, Label(o.nl + 1));
    var (o5, bv) := GenExpr(gs, o4, e.els);
    ExprEmits(gs, o0, e.cond);
    OneMore(o1, Jz(cv, o.nl + 1));
    OneMore(oA, Label(o.nl));
    ExprEmits(gs, o2, e.thn);
    OneMore(o3, Copy(o.nt, av));
    OneMore(oB, Jmp(o.nl + 2));
    OneMore(oC, Label(o.nl + 1));
    ExprEmits(gs, o4, e.els);
    OneMore(o5, Copy(o.nt, bv));
    OneMore(Emit(o5, Copy(o.nt, bv)), Label(o.nl + 2));
  }

  // ----- statements -----

  /** The generator's targets are set exactly where the checker's depths and label search allow a jump. */
  ghost predicate Mirrors(env: Env, names: seq<string>, loops: nat, sws: nat) {
    && (env.brk != 0 <==> loops > 0 || sws > 0)
    && (env.cont != 0 <==> loops > 0)
    && forall x :: Lookup(env.gotos, x).Some? <==> x in names
  }

  /** The jumps emitted for `s`, and those missing, are all there should be. */
  ghost predicate Balanced(o: Out, r: Out, names: seq<string>, loops: nat, sws: nat, s: Stmt) {
    r.nl >= o.nl && Jumps(r.code) + Misplaced(names, loops, sws, s) == Jumps(o.code) + FormJumps(s) + Transfers(s)
  }

  lemma {:induction false} StmtEmits(env: Env, gs: Scope, o: Out, s: Stmt, names: seq<string>, loops: nat, sws: nat)
    requires ScopeBelow(gs, o.nt) && o.nl > 0 && ForsSimple(s) && Mirrors(env, names, loops, sws)
    ensures Balanced(o, GenStmt(env, gs, o, s).0, names, loops, sws, s)
    decreases s, 3
  {
    hide Jumps, Mirrors, GenIf, GenWhile, GenDoWhile, GenFor, GenSwitch;
    match s
    case End =>
    case Then(a, b) =>
      var (o1, gs1) := GenStmt(env, gs, o, a);
      StmtEmits(env, gs, o, a, names, loops, sws);
      StmtEmits(env, gs1, o1, b, names, loops, sws);
    case Compound(b) => StmtEmits(env, gs, o, b, names, loops, sws);
    case ExprStmt(e) => ExprEmits(gs, o, e);
    case Decl(_, _, _) => DeclEmits(gs, o, s);
    case If(_, _, _) => IfEmits(env, gs, o, s, names, loops, sws);
    case While(_, _) => WhileEmits(env, gs, o, s, names, loops, sws);
    case DoWhile(_, _) => DoEmits(env, gs, o, s, names, loops, sws);
    case For(_, _, _, _) => ForEmits(env, gs, o, s, names, loops, sws);
    case Return(e) =>
      OneMore(o, Ret(None));
      if e.Some? {
        var (o1, v) := GenExpr(gs, o, e.value);
        ExprEmits(gs, o, e.value);
        OneMore(o1, Ret(Some(v)));
      }
    case Break => TransferEmits(env, gs, o, s, names, loops, sws);
    case Continue => TransferEmits(env, gs, o, s, names, loops, sws);
    case Goto(_) => TransferEmits(env, gs, o, s, names, loops, sws);
    case Switch(_, _) => SwitchEmits(env, gs, o, s, names, loops, sws);
    case Case(id, e, b) => LabelledEmits(env, gs, o, FindCase(env.cases, id, false), b, names, loops, sws);
    case Default(id, b) => LabelledEmits(env, gs, o, FindCase(env.cases, id, true), b, names, loops, sws);
    case Labelled(x, b) => LabelledEmits(env, gs, o, Lookup(env.gotos, x), b, names, loops, sws);
  }

  /** A `break`, `continue` or `goto` is a jump exactly when the checker accepts it. */
  lemma TransferEmits(env: Env, gs: Scope, o: Out, s: Stmt, names: seq<string>, loops: nat, sws: nat)
    requires s.Break? || s.Continue? || s.Goto?
    requires ScopeBelow(gs, o.nt) && Mirrors(env, names, loops, sws)
    ensures Misplaced(names, loops, sws, s) == 0 ==>
              exists l {:trigger Emit(o, Jmp(l))} :: GenStmt(env, gs, o, s).0 == Emit(o, Jmp(l))
    ensures Misplaced(names, loops, sws, s) != 0 ==> GenStmt(env, gs, o, s).0 == o
    ensures Balanced(o, GenStmt(env, gs, o, s).0, names, loops, sws, s)
  {
    hide Jumps;
    var at := if s.Break? then env.brk else if s.Continue? then env.cont
              else if Lookup(env.gotos, s.name).Some? then Lookup(env.gotos, s.name).value else 0;
    OneMore(o, Jmp(at));
  }

  lemma {:induction false} LabelledEmits(env: Env, gs: Scope, o: Out, at: Option<nat>, b: Stmt, names: seq<string>,
                                         loops: nat, sws: nat)
    requires ScopeBelow(gs, o.nt) && o.nl > 0 && ForsSimple(b) && Mirrors(env, names, loops, sws)
    ensures Balanced(o, GenStmt(env, gs, EmitOptLabel(o, at), b).0, names, loops, sws, b)
    decreases b, 4
  {
    hide Jumps, Mirrors, GenStmt;
    if at.Some? {
      OneMore(o, Label(at.value));
    }
    StmtEmits(env, gs, EmitOptLabel(o, at), b, names, loops, sws);
  }

  lemma DeclEmits(gs: Scope, o: Out, s: Stmt)
    requires s.Decl? && ScopeBelow(gs, o.nt)
    ensures Jumps(GenDecl(gs, o, s).0.code) == Jumps(o.code) + OptJumps(s.init)
  {
    hide Jumps;
    OneMore(NewTemp(o), Alloca(o.nt, 4, 4));
    if s.init.Some? {
      var o1, gs1 := GenAlloca(o, s.id), [(s.name, o.nt)] + gs;
      var (o2, v) := GenExpr(gs1, o1, s.init.value);
      ExprEmits(gs1, o1, s.init.value);
      OneMore(o2, Store(Temp(o.nt), v, 4));
    }
  }

  lemma TestEmits(gs: Scope, o: Out, test: Option<Expr>, exit: nat)
    requires ScopeBelow(gs, o.nt)
    ensures Jumps(GenTest(gs, o, test, exit).code) == Jumps(o.code) + OptJumps(test)
  {
    hide Jumps;
    if test.Some? {
      var (o1, v) := GenExpr(gs, o, test.value);
      ExprEmits(gs, o, test.value);
      OneMore(o1, Jz(v, exit));
    }
  }

  lemma {:induction false} IfEmits(env: Env, gs: Scope, o: Out, s: Stmt, names: seq<string>, loops: nat, sws: nat)
    requires s.If? && ScopeBelow(gs, o.nt) && o.nl > 0 && ForsSimple(s) && Mirrors(env, names, loops, sws)
    ensures Balanced(o, GenIf(env, gs, o, s).0, names, loops, sws, s)
    decreases s, 0
  {
    hide Jumps, Mirrors;
    var oL := NewLabels(o, 2);
    var oT := GenTest(gs, oL, Some(s.cond), o.nl);
    var (o2, gs2) := IfThen(env, gs, o, s);
    TestEmits(gs, oL, Some(s.cond), o.nl);
    StmtEmits(env, gs, oT, s.thn, names, loops, sws);
    if s.els.None? {
      OneMore(o2, Label(o.nl));
    } else {
      var oJ := Emit(o2, Jmp(o.nl + 1));
      var oE := Emit(oJ, Label(o.nl));
      OneMore(o2, Jmp(o.nl + 1));
      OneMore(oJ, Label(o.nl));
      StmtEmits(env, gs2, oE, s.els.value, names, loops, sws);
      OneMore(IfElse(env, gs, o, s).0, Label(o.nl + 1));
    }
  }

  lemma InLoop(env: Env, names: seq<string>, loops: nat, sws: nat, brk: nat, cont: nat)
    requires Mirrors(env, names, loops, sws) && brk != 0 && cont != 0
    ensures Mirrors(env.(brk := brk, cont := cont), names, loops + 1, sws)
  {
  }

  lemma {:induction false} WhileEmits(env: Env, gs: Scope, o: Out, s: Stmt, names: seq<string>, loops: nat, sws: nat)
    requires s.While? && ScopeBelow(gs, o.nt) && o.nl > 0 && ForsSimple(s) && Mirrors(env, names, loops, sws)
    ensures Balanced(o, GenWhile(env, gs, o, s).0, names, loops, sws, s)
    decreases s, 0
  {
    hide Jumps, Mirrors;
    var oL := NewLabels(o, 3);
    var oP := Emit(oL, Label(o.nl));
    var oT, oS := GenTest(gs, oP, Some(s.cond), o.nl + 2), WhileStart(gs, o, s);
    var oB := WhileBody(env, gs, o, s).0;
    OneMore(oL, Label(o.nl));
    TestEmits(gs, oP, Some(s.cond), o.nl + 2);
    OneMore(oT, Label(o.nl + 1));
    InLoop(env, names, loops, sws, o.nl + 2, o.nl);
    StmtEmits(env.(brk := o.nl + 2, cont := o.nl), gs, oS, s.body, names, loops + 1, sws);
    OneMore(oB, Jmp(o.nl));
    OneMore(Emit(oB, Jmp(o.nl)), Label(o.nl + 2));
  }

  lemma {:induction false} DoEmits(env: Env, gs: Scope, o: Out, s: Stmt, names: seq<string>, loops: nat, sws: nat)
    requires s.DoWhile? && ScopeBelow(gs, o.nt) && o.nl > 0 && ForsSimple(s) && Mirrors(env, names, loops, sws)
    ensures Balanced(o, GenDoWhile(env, gs, o, s).0, names, loops, sws, s)
    decreases s, 0
  {
    hide Jumps, Mirrors;
    var oL := NewLabels(o, 3);
    var oP := Emit(oL, Label(o.nl));
    var (oB, gsB) := DoBody(env, gs, o, s);
    var (oT, v) := DoTest(env, gs, o, s);
    OneMore(oL, Label(o.nl));
    InLoop(env, names, loops, sws, o.nl + 2, o.nl + 1);
    StmtEmits(env.(brk := o.nl + 2, cont := o.nl + 1), gs, oP, s.body, names, loops + 1, sws);
    OneMore(oB, Label(o.nl + 1));
    ExprEmits(gsB, Emit(oB, Label(o.nl + 1)), s.cond);
    OneMore(oT, Jnz(v, o.nl));
    OneMore(Emit(oT, Jnz(v, o.nl)), Label(o.nl + 2));
  }

  lemma {:induction false} ForEmits(env: Env, gs: Scope, o: Out, s: Stmt, names: seq<string>, loops: nat, sws: nat)
    requires s.For? && ScopeBelow(gs, o.nt) && o.nl > 0 && ForsSimple(s) && Mirrors(env, names, loops, sws)
    ensures Balanced(o, GenFor(env, gs, o, s).0, names, loops, sws, s)
    decreases s, 2
  {
    hide Jumps, Mirrors, GenForLoop;
    var env1, oL := ForEnv(env, o.nl), NewLabels(o, 4);
    var (o1, gs1) := ForInit(env, gs, o, s);
    InLoop(env, names, loops, sws, o.nl + 3, o.nl + 2);
    SimpleChecks(names, loops + 1, sws, s.start);
    SimpleChecks(names, loops, sws, s.start);
    StmtEmits(env1, gs, oL, s.start, names, loops + 1, sws);
    ForLoopEmits(env1, gs1, o1, s, o.nl, names, loops + 1, sws);
  }

  lemma {:induction false} ForLoopEmits(env: Env, gs: Scope, o: Out, s: Stmt, nl: nat, names: seq<string>,
                                        loops: nat, sws: nat)
    requires s.For? && ScopeBelow(gs, o.nt) && o.nl > 0 && ForsSimple(s) && Mirrors(env, names, loops, sws)
    ensures var r := GenForLoop(env, gs, o, s, nl);
            r.nl >= o.nl && Jumps(r.code) + Misplaced(names, loops, sws, s.body)
              == Jumps(o.code) + OptJumps(s.test) + FormJumps(s.body) + Transfers(s.body) + OptJumps(s.incr) + 1
    decreases s, 1
  {
    hide Jumps, Mirrors;
    var oP := Emit(o, Label(nl));
    var oT, oS := GenTest(gs, oP, s.test, nl + 3), ForStart(gs, o, s, nl);
    var (oB, gsB) := ForBody(env, gs, o, s, nl);
    var oC, oI := Emit(oB, Label(nl + 2)), ForIncr(env, gs, o, s, nl);
    OneMore(o, Label(nl));
    TestEmits(gs, oP, s.test, nl + 3);
    OneMore(oT, Label(nl + 1));
    StmtEmits(env, gs, oS, s.body, names, loops, sws);
    OneMore(oB, Label(nl + 2));
    if s.incr.Some? {
      ExprEmits(gsB, oC, s.incr.value);
    }
    OneMore(oI, Jmp(nl));
    OneMore(Emit(oI, Jmp(nl)), Label(nl + 3));
  }

  lemma {:induction false} TestsEmit(o: Out, sv: nat, cases: seq<CaseEntry>)
    ensures Jumps(EmitTests(o, sv, cases).code) == Jumps(o.code)
    decreases cases
  {
    hide Jumps;
    if cases != [] {
      if cases[0].isDefault {
        TestsEmit(o, sv, cases[1..]);
      } else {
        var i := Bin(Eq, o.nt, Temp(sv), Imm(cases[0].val), false);
        var o1 := Emit(NewTemp(o), i);
        OneMore(NewTemp(o), i);
        OneMore(o1, Jnz(Temp(o.nt), cases[0].target));
        TestsEmit(Emit(o1, Jnz(Temp(o.nt), cases[0].target)), sv, cases[1..]);
      }
    }
  }

  lemma DispatchEmits(gs: Scope, o: Out, e: Expr, c: Collected, end: nat)
    requires ScopeBelow(gs, o.nt)
    ensures Jumps(GenDispatch(gs, o, e, c, end).code) == Jumps(o.code) + ExprJumps(e) + 1
  {
    hide Jumps;
    var (o1, v) := GenExpr(gs, o, e);
    var o2 := EmitTests(Emit(NewTemp(o1), Copy(o1.nt, v)), o1.nt, c.cases);
    ExprEmits(gs, o, e);
    OneMore(NewTemp(o1), Copy(o1.nt, v));
    TestsEmit(Emit(NewTemp(o1), Copy(o1.nt, v)), o1.nt, c.cases);
    OneMore(o2, Jmp(if c.dflt != 0 then c.dflt else end));
  }

  lemma {:induction false} SwitchEmits(env: Env, gs: Scope, o: Out, s: Stmt, names: seq<string>, loops: nat, sws: nat)
    requires s.Switch? && ScopeBelow(gs, o.nt) && o.nl > 0 && ForsSimple(s) && Mirrors(env, names, loops, sws)
    ensures Balanced(o, GenSwitch(env, gs, o, s).0, names, loops, sws, s)
    decreases s, 0
  {
    hide Jumps;
    var c, env1, oS := SwitchTable(o, s), SwitchEnv(env, o, s), SwitchStart(gs, o, s);
    var oN := o.(nl := c.nl);
    DispatchEmits(gs, oN, s.e, c, o.nl);
    assert Mirrors(env1, names, loops, sws + 1);
    StmtEmits(env1, gs, oS, s.body, names, loops, sws + 1);
    OneMore(SwitchBody(env, gs, o, s).0, Label(o.nl));
  }

  // ----- a whole function -----

  lemma {:induction false} LookupSome(es: seq<(string, nat)>, x: string)
    ensures Lookup(es, x).Some? <==> exists i :: 0 <= i < |es| && es[i].0 == x
  {
    if es != [] {
      LookupSome(es[1..], x);
      forall i | 0 <= i < |es| && es[i].0 == x
        ensures Lookup(es, x).Some?
      {
        assert i == 0 || es[1..][i - 1].0 == x;
      }
    }
  }

  /** The checker's label search and the generator's label table agree on every name, repeated or not. */
  lemma LabelsAgree(body: Stmt, x: string)
    ensures x in LabelNames(body) <==> Lookup(FuncEnv(body).gotos, x).Some?
  {
    FuncIs(body);
    var xs := LabelNames(body);
    var es := NameEntries(xs, 1);
    LookupSome(es, x);
    forall i | 0 <= i < |xs|
      ensures es[|xs| - 1 - i].0 == xs[i]
    {
    }
    forall k | 0 <= k < |es|
      ensures es[k].0 in xs
    {
      assert es[|xs| - 1 - (|xs| - 1 - k)] == (xs[|xs| - 1 - k], 1 + (|xs| - 1 - k));
    }
  }

  lemma FuncMirrors(body: Stmt)
    ensures Mirrors(FuncEnv(body), LabelNames(body), 0, 0)
  {
    hide CollectLabels, LabelNames, Lookup;
    forall x
      ensures Lookup(FuncEnv(body).gotos, x).Some? <==> x in LabelNames(body)
    {
      LabelsAgree(body, x);
    }
  }

  /** One jump is missing from a function's code for every misplaced `break`, `continue` or `goto`. */
  lemma MissingJumps(body: Stmt)
    requires ForsSimple(body)
    ensures Jumps(GenFunc(body).code) + Misplaced(LabelNames(body), 0, 0, body) == FormJumps(body) + Transfers(body)
  {
    hide Jumps, Mirrors, GenFunc, GenStmt, CollectLabels, LabelNames, Misplaced, FormJumps, Transfers;
    FuncIs(body);
    FuncMirrors(body);
    StmtEmits(FuncEnv(body), [], FuncStart(body), body, LabelNames(body), 0, 0);
    NoJumps();
  }

  lemma NoJumps()
    ensures Jumps([]) == 0
  {
  }

  /** Check a function body: no error exactly when no case is stray and no jump is missing. */
  method CheckFunc(body: Stmt) returns (errors: nat)
    requires ForsSimple(body)
    ensures Jumps(GenFunc(body).code) + errors == FormJumps(body) + Transfers(body) + |Cases(body)|
    ensures errors == 0 <==> Cases(body) == [] && Jumps(GenFunc(body).code) == FormJumps(body) + Transfers(body)
  {
    hide Jumps, GenFunc, LabelNames, Misplaced, FormJumps, Transfers, Cases;
    var c := new Checker(body);
    c.CheckStmt(body);
    MissingJumps(body);
    return c.errors;
  }

  /**
   The other half of what lowering relies on. The checker does not look for repeated labels or
   repeated case values; with those excluded, a body without errors is one that lowering preserves.
   */
  lemma AcceptedIsValid(body: Stmt)
    requires ForsSimple(body) && Shaped(body) && Distinct(LabelNames(body)) && Distinct(DeclIds(body))
    requires Cases(body) == [] && Misplaced(LabelNames(body), 0, 0, body) == 0
    ensures Valid(body) && Jumps(GenFunc(body).code) == FormJumps(body) + Transfers(body)
  {
    hide Jumps, GenFunc, LabelNames, Misplaced, FormJumps, Transfers, Shaped, Distinct, DeclIds, Cases;
    MissingJumps(body);
  }
}
