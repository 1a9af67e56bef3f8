/**
 What lowering emits, as functions from the generator's state to its next state. The stateful
 code in IrGenerator.dfy is proved against them.
 */
module IrGen {
  import opened Wrappers
  import opened Ast
  import opened Ir

  /**
   The append-only output of one function: instructions, the two counters, and, for the proofs,
   which temporary holds the address of each declaration in the order they were allocated.
   */
  datatype Out = Out(code: seq<Instr>, nt: nat, nl: nat, vars: seq<(nat, nat)>)

  datatype CaseEntry = CaseEntry(id: nat, val: int, isDefault: bool, target: nat)

  /** The generator fields that are saved and restored around loops and switches. */
  datatype Env = Env(brk: nat, cont: nat, cases: seq<CaseEntry>, dflt: nat, gotos: seq<(string, nat)>)

  /** `o2` continues `o1`; declarations added in between own temporaries allocated in between. */
  predicate Extends(o1: Out, o2: Out) {
    && o1.code <= o2.code
    && o1.nt <= o2.nt
    && o1.nl <= o2.nl
    && o1.vars <= o2.vars
    && forall i :: |o1.vars| <= i < |o2.vars| ==> o1.nt <= o2.vars[i].1 < o2.nt
  }

  function Emit(o: Out, i: Instr): (r: Out)
    ensures Extends(o, r)
  {
    o.(code := o.code + [i])
  }

  function NewTemp(o: Out): (r: Out)
    ensures Extends(o, r)
  {
    o.(nt := o.nt + 1)
  }

  function NewLabels(o: Out, n: nat): (r: Out)
    ensures Extends(o, r)
  {
    o.(nl := o.nl + n)
  }

  predicate Below(v: Operand, nt: nat) {
    v.Temp? ==> v.id < nt
  }

  predicate ScopeBelow(scope: Scope, nt: nat) {
    forall i :: 0 <= i < |scope| ==> scope[i].1 < nt
  }

  /** The address of a variable, or a reference to an unknown symbol. */
  function Address(scope: Scope, x: string): Operand {
    var t := Lookup(scope, x);
    if t.Some? then Temp(t.value) else Global(x)
  }

  /** Load an `int` through `addr` into a fresh temporary. */
  function GenLoad(o: Out, addr: Operand): (r: Out)
    ensures Extends(o, r)
  {
    Emit(NewTemp(o), Load(o.nt, addr, 4, true))
  }

  function GenStore(o: Out, addr: Operand, v: Operand): Out {
    Emit(o, Store(addr, v, 4))
  }

  // ----- expressions -----

  function GenUnary(o: Out, op: UnaryOp, v: Operand): (r: (Out, Operand))
    requires Below(v, o.nt)
    ensures Extends(o, r.0) && r.0.vars == o.vars && o.nt <= r.0.nt && Below(r.1, r.0.nt)
  {
    match op
    case Minus => (Emit(NewTemp(o), Un(Neg, o.nt, v)), Temp(o.nt))
    case Tilde => (Emit(NewTemp(o), Un(Not, o.nt, v)), Temp(o.nt))
    case Bang => (Emit(NewTemp(o), Bin(Eq, o.nt, v, Imm(0), false)), Temp(o.nt))
    case Plus => (NewTemp(o), v)
  }

  function GenStep(scope: Scope, o: Out, x: string, inc: bool, post: bool): (r: (Out, Operand))
    ensures Extends(o, r.0) && r.0.vars == o.vars && o.nt <= r.0.nt && Below(r.1, r.0.nt)
  {
    var addr := Address(scope, x);
    var o1 := GenLoad(o, addr);
    var o2 := Emit(NewTemp(o1), Bin(if inc then Add else Sub, o1.nt, Temp(o.nt), Imm(1), false));
    (GenStore(o2, addr, Temp(o1.nt)), if post then Temp(o.nt) else Temp(o1.nt))
  }

  /** After the right operand of `&&`: labels are end = nl, false = nl + 1, true = nl + 2. */
  function FinishAnd(o: Out, rv: Operand, res: nat, nl: nat): (r: Out)
    ensures Extends(o, r) && r.vars == o.vars && r.nt == o.nt && r.nl == o.nl
    ensures r.code == o.code + [Jnz(rv, nl + 2), Jmp(nl + 1), Label(nl + 1), Copy(res, Imm(0)),
                                Jmp(nl), Label(nl + 2), Copy(res, Imm(1)), Label(nl)]
  {
    o.(code := o.code + [Jnz(rv, nl + 2), Jmp(nl + 1), Label(nl + 1), Copy(res, Imm(0)),
                         Jmp(nl), Label(nl + 2), Copy(res, Imm(1)), Label(nl)])
  }

  function FinishOr(o: Out, rv: Operand, res: nat, nl: nat): (r: Out)
    ensures Extends(o, r) && r.vars == o.vars && r.nt == o.nt && r.nl == o.nl
    ensures r.code == o.code + [Jnz(rv, nl + 2), Copy(res, Imm(0)), Jmp(nl), Label(nl + 2),
                                Copy(res, Imm(1)), Label(nl)]
  {
    o.(code := o.code + [Jnz(rv, nl + 2), Copy(res, Imm(0)), Jmp(nl), Label(nl + 2),
                         Copy(res, Imm(1)), Label(nl)])
  }

  function GenExpr(scope: Scope, o: Out, e: Expr): (r: (Out, Operand))
    requires ScopeBelow(scope, o.nt)
    ensures Extends(o, r.0) && r.0.vars == o.vars && o.nt <= r.0.nt && Below(r.1, r.0.nt)
    decreases e
  {
    match e
    case IntLit(v) => (o, Imm(v))
    case Ident(x) =>
      if Lookup(scope, x).Some? then (GenLoad(o, Address(scope, x)), Temp(o.nt)) else (o, Global(x))
    case Unary(op, a) =>
      var (o1, v) := GenExpr(scope, o, a);
      GenUnary(o1, op, v)
    case PreIncDec(inc, x) => GenStep(scope, o, x, inc, false)
    case PostIncDec(inc, x) => GenStep(scope, o, x, inc, true)
    case Binary(op, a, b) =>
      var (o1, lv) := GenExpr(scope, o, a);
      var (o2, rv) := GenExpr(scope, o1, b);
      (Emit(NewTemp(o2), Bin(op, o2.nt, lv, rv, false)), Temp(o2.nt))
    case LogAnd(a, b) =>
      var (o1, lv) := GenExpr(scope, NewLabels(NewTemp(o), 3), a);
      var (o2, rv) := GenExpr(scope, Emit(o1, Jz(lv, o.nl + 1)), b);
      (FinishAnd(o2, rv, o.nt, o.nl), Temp(o.nt))
    case LogOr(a, b) =>
      var (o1, lv) := GenExpr(scope, NewLabels(NewTemp(o), 3), a);
      var (o2, rv) := GenExpr(scope, Emit(o1, Jnz(lv, o.nl + 2)), b);
      (FinishOr(o2, rv, o.nt, o.nl), Temp(o.nt))
    case Assign(x, a) =>
      var (o1, v) := GenExpr(scope, o, a);
      (GenStore(o1, Address(scope, x), v), v)
    case CompoundAssign(op, x, a) =>
      var o1 := GenLoad(o, Address(scope, x));
      var (o2, rv) := GenExpr(scope, o1, a);
      var o3 := Emit(NewTemp(o2), Bin(op, o2.nt, Temp(o.nt), rv, false));
      (GenStore(o3, Address(scope, x), Temp(o2.nt)), Temp(o2.nt))
    case Ternary(c, a, b) =>
      var res := o.nt;
      var (o1, cv) := GenExpr(scope, NewTemp(NewLabels(o, 3)), c);
      var o2 := Emit(Emit(o1, Jz(cv, o.nl + 1)), Label(o.nl));
      var (o3, av) := GenExpr(scope, o2, a);
      var o4 := Emit(Emit(Emit(o3, Copy(res, av)), Jmp(o.nl + 2)), Label(o.nl + 1));
      var (o5, bv) := GenExpr(scope, o4, b);
      (Emit(Emit(o5, Copy(res, bv)), Label(o.nl + 2)), Temp(res))
    case Comma(a, b) =>
      var (o1, _) := GenExpr(scope, o, a);
      GenExpr(scope, o1, b)
  }

  /** The first branch of a conditional expression, up to the label of the second. */
  function TernaryThen(scope: Scope, o: Out, e: Expr, res: nat, end: nat, second: nat): (r: Out)
    requires ScopeBelow(scope, o.nt)
    ensures o.nt <= r.nt
  {
    var (o1, v) := GenExpr(scope, o, e);
    Emit(Emit(Emit(o1, Copy(res, v)), Jmp(end)), Label(second))
  }

  /** The parts of a conditional expression. */
  lemma TernaryIs(scope: Scope, o: Out, e: Expr)
    requires ScopeBelow(scope, o.nt) && e.Ternary?
    ensures var (o1, cv) := GenExpr(scope, NewTemp(NewLabels(o, 3)), e.cond);
            var o2 := Emit(Emit(o1, Jz(cv, o.nl + 1)), Label(o.nl));
            var (o5, bv) := GenExpr(scope, TernaryThen(scope, o2, e.thn, o.nt, o.nl + 2, o.nl + 1), e.els);
            GenExpr(scope, o, e) == (Emit(Emit(o5, Copy(o.nt, bv)), Label(o.nl + 2)), Temp(o.nt))
  {
    hide Extends;
  }

  // ----- switch tables and named labels -----

  /** The compiler's own evaluator of `case` expressions. */
  function EvalConst(e: Expr): int {
    match e
    case IntLit(v) => v
    case Unary(op, a) => if op == Minus then -EvalConst(a) else EvalConst(a)
    case _ => 0
  }

  datatype Collected = Collected(nl: nat, cases: seq<CaseEntry>, dflt: nat)

  /** Labels for the cases of one switch; the list grows at its head. */
  function CollectCases(s: Stmt, c: Collected): (r: Collected)
    ensures c.nl <= r.nl
  {
    match s
    case Case(id, e, b) =>
      CollectCases(b, Collected(c.nl + 1, [CaseEntry(id, EvalConst(e), false, c.nl)] + c.cases, c.dflt))
    case Default(id, b) =>
      CollectCases(b, Collected(c.nl + 1, [CaseEntry(id, 0, true, c.nl)] + c.cases, c.nl))
    case Then(a, b) => CollectCases(b, CollectCases(a, c))
    case Compound(b) => CollectCases(b, c)
    case If(_, a, b) => if b.Some? then CollectCases(b.value, CollectCases(a, c)) else CollectCases(a, c)
    case While(_, b) => CollectCases(b, c)
    case DoWhile(b, _) => CollectCases(b, c)
    case For(_, _, _, b) => CollectCases(b, c)
    case Labelled(_, b) => CollectCases(b, c)
    case _ => c
  }

  /** Labels for the named labels of a function; the list grows at its head. */
  function CollectLabels(s: Stmt, nl: nat, acc: seq<(string, nat)>): (r: (nat, seq<(string, nat)>))
    ensures nl <= r.0
    decreases s
  {
    match s
    case Labelled(x, b) => CollectLabels(b, nl + 1, [(x, nl)] + acc)
    case Then(a, b) =>
      var (nl1, acc1) := CollectLabels(a, nl, acc);
      CollectLabels(b, nl1, acc1)
    case Compound(b) => CollectLabels(b, nl, acc)
    case If(_, a, b) =>
      var (nl1, acc1) := CollectLabels(a, nl, acc);
      if b.Some? then CollectLabels(b.value, nl1, acc1) else (nl1, acc1)
    case While(_, b) => CollectLabels(b, nl, acc)
    case DoWhile(b, _) => CollectLabels(b, nl, acc)
    case For(_, _, _, b) => CollectLabels(b, nl, acc)
    case Switch(_, b) => CollectLabels(b, nl, acc)
    case Case(_, _, b) => CollectLabels(b, nl, acc)
    case Default(_, b) => CollectLabels(b, nl, acc)
    case _ => (nl, acc)
  }

  /** The label assigned to the `case` or `default` node `id`: entries are matched by node identity. */
  function FindCase(cases: seq<CaseEntry>, id: nat, isDefault: bool): Option<nat> {
    if cases == [] then None
    else if cases[0].id == id && cases[0].isDefault == isDefault then Some(cases[0].target)
    else FindCase(cases[1..], id, isDefault)
  }

  function EmitOptLabel(o: Out, l: Option<nat>): (r: Out)
    ensures Extends(o, r) && r.vars == o.vars && r.nt == o.nt && r.nl == o.nl
  {
    if l.Some? then Emit(o, Label(l.value)) else o
  }

  function EmitOptJmp(o: Out, l: Option<nat>): (r: Out)
    ensures Extends(o, r) && r.vars == o.vars && r.nt == o.nt && r.nl == o.nl
  {
    if l.Some? then Emit(o, Jmp(l.value)) else o
  }

  /** The comparison chain of a switch on temporary `sv`. */
  function EmitTests(o: Out, sv: nat, cases: seq<CaseEntry>): (r: Out)
    ensures Extends(o, r) && r.vars == o.vars && r.nl == o.nl
    decreases cases
  {
    if cases == [] then o
    else if cases[0].isDefault then EmitTests(o, sv, cases[1..])
    else
      var o1 := Emit(NewTemp(o), Bin(Eq, o.nt, Temp(sv), Imm(cases[0].val), false));
      EmitTests(Emit(o1, Jnz(Temp(o.nt), cases[0].target)), sv, cases[1..])
  }

  /** A switch up to its body: its value in a fresh temporary, the tests, the default jump. */
  function GenDispatch(scope: Scope, o: Out, e: Expr, c: Collected, end: nat): (r: Out)
    requires ScopeBelow(scope, o.nt)
    ensures Extends(o, r) && r.vars == o.vars && o.nt <= r.nt
  {
    var (o1, v) := GenExpr(scope, o, e);
    var o2 := EmitTests(Emit(NewTemp(o1), Copy(o1.nt, v)), o1.nt, c.cases);
    Emit(o2, Jmp(if c.dflt != 0 then c.dflt else end))
  }

  function GenOptExpr(scope: Scope, o: Out, e: Option<Expr>): (r: Out)
    requires ScopeBelow(scope, o.nt)
    ensures Extends(o, r) && r.vars == o.vars && o.nt <= r.nt
  {
    if e.Some? then GenExpr(scope, o, e.value).0 else o
  }

  /** Evaluate a test and leave for `exit` when it is zero; an absent test emits nothing. */
  function GenTest(scope: Scope, o: Out, test: Option<Expr>, exit: nat): (r: Out)
    requires ScopeBelow(scope, o.nt)
    ensures Extends(o, r) && r.vars == o.vars && o.nt <= r.nt
  {
    if test.None? then o
    else
      var (o1, v) := GenExpr(scope, o, test.value);
      Emit(o1, Jz(v, exit))
  }

  /** A declaration's region: the alloca, and the note of which temporary addresses it. */
  function GenAlloca(o: Out, id: nat): (r: Out)
    ensures Extends(o, r) && r.nt == o.nt + 1 && r.nl == o.nl && r.vars == o.vars + [(id, o.nt)]
  {
    Emit(NewTemp(o), Alloca(o.nt, 4, 4)).(vars := o.vars + [(id, o.nt)])
  }

  // ----- statements -----

  function GenStmt(env: Env, scope: Scope, o: Out, s: Stmt): (r: (Out, Scope))
    requires ScopeBelow(scope, o.nt)
    ensures Extends(o, r.0) && ScopeBelow(r.1, r.0.nt)
    decreases s, 4
  {
    match s
    case End => (o, scope)
    case Then(a, b) =>
      var (o1, scope1) := GenStmt(env, scope, o, a);
      GenStmt(env, scope1, o1, b)
    case Compound(b) => (GenStmt(env, scope, o, b).0, scope)
    case ExprStmt(e) => (GenExpr(scope, o, e).0, scope)
    case Decl(_, _, _) => GenDecl(scope, o, s)
    case If(_, _, _) => GenIf(env, scope, o, s)
    case While(_, _) => GenWhile(env, scope, o, s)
    case DoWhile(_, _) => GenDoWhile(env, scope, o, s)
    case For(_, _, _, _) => GenFor(env, scope, o, s)
    case Return(e) => (GenReturn(scope, o, e), scope)
    case Break => (EmitOptJmp(o, if env.brk != 0 then Some(env.brk) else None), scope)
    case Continue => (EmitOptJmp(o, if env.cont != 0 then Some(env.cont) else None), scope)
    case Switch(_, _) => GenSwitch(env, scope, o, s)
    case Case(id, _, b) => GenStmt(env, scope, EmitOptLabel(o, FindCase(env.cases, id, false)), b)
    case Default(id, b) => GenStmt(env, scope, EmitOptLabel(o, FindCase(env.cases, id, true)), b)
    case Goto(x) => (EmitOptJmp(o, Lookup(env.gotos, x)), scope)
    case Labelled(x, b) => GenStmt(env, scope, EmitOptLabel(o, Lookup(env.gotos, x)), b)
  }

  function GenReturn(scope: Scope, o: Out, e: Option<Expr>): (r: Out)
    requires ScopeBelow(scope, o.nt)
    ensures Extends(o, r) && r.vars == o.vars && o.nt <= r.nt
  {
    if e.None? then Emit(o, Ret(None))
    else
      var (o1, v) := GenExpr(scope, o, e.value);
      Emit(o1, Ret(Some(v)))
  }

  function GenDecl(scope: Scope, o: Out, s: Stmt): (r: (Out, Scope))
    requires s.Decl? && ScopeBelow(scope, o.nt)
    ensures Extends(o, r.0) && ScopeBelow(r.1, r.0.nt)
    ensures r.0.vars == o.vars + [(s.id, o.nt)] && r.1 == [(s.name, o.nt)] + scope
  {
    var o1 := GenAlloca(o, s.id);
    var scope1 := [(s.name, o.nt)] + scope;
    if s.init.None? then (o1, scope1)
    else
      var (o2, v) := GenExpr(scope1, o1, s.init.value);
      (GenStore(o2, Temp(o.nt), v), scope1)
  }

  /** Labels: else = nl, end = nl + 1. */
  function IfThen(env: Env, scope: Scope, o: Out, s: Stmt): (r: (Out, Scope))
    requires s.If? && ScopeBelow(scope, o.nt)
    ensures Extends(o, r.0) && ScopeBelow(r.1, r.0.nt)
    decreases s, 0
  {
    GenStmt(env, scope, GenTest(scope, NewLabels(o, 2), Some(s.cond), o.nl), s.thn)
  }

  function IfElse(env: Env, scope: Scope, o: Out, s: Stmt): (r: (Out, Scope))
    requires s.If? && s.els.Some? && ScopeBelow(scope, o.nt)
    ensures Extends(IfThen(env, scope, o, s).0, r.0) && Extends(o, r.0) && ScopeBelow(r.1, r.0.nt)
    decreases s, 1
  {
    var (o2, scope2) := IfThen(env, scope, o, s);
    GenStmt(env, scope2, Emit(Emit(o2, Jmp(o.nl + 1)), Label(o.nl)), s.els.value)
  }

  function GenIf(env: Env, scope: Scope, o: Out, s: Stmt): (r: (Out, Scope))
    requires s.If? && ScopeBelow(scope, o.nt)
    ensures Extends(IfThen(env, scope, o, s).0, r.0) && Extends(o, r.0) && ScopeBelow(r.1, r.0.nt)
    decreases s, 2
  {
    if s.els.None? then
      var (o2, scope2) := IfThen(env, scope, o, s);
      (Emit(o2, Label(o.nl)), scope2)
    else
      var (o4, scope4) := IfElse(env, scope, o, s);
      (Emit(o4, Label(o.nl + 1)), scope4)
  }

  /** Labels of a while loop: top = nl, body = nl + 1, end = nl + 2. */
  function WhileStart(scope: Scope, o: Out, s: Stmt): (r: Out)
    requires s.While? && ScopeBelow(scope, o.nt)
    ensures Extends(o, r) && r.vars == o.vars && o.nt <= r.nt
  {
    Emit(GenTest(scope, Emit(NewLabels(o, 3), Label(o.nl)), Some(s.cond), o.nl + 2), Label(o.nl + 1))
  }

  function WhileBody(env: Env, scope: Scope, o: Out, s: Stmt): (r: (Out, Scope))
    requires s.While? && ScopeBelow(scope, o.nt)
    ensures Extends(WhileStart(scope, o, s), r.0) && Extends(o, r.0) && ScopeBelow(r.1, r.0.nt)
    decreases s, 0
  {
    GenStmt(env.(brk := o.nl + 2, cont := o.nl), scope, WhileStart(scope, o, s), s.body)
  }

  function GenWhile(env: Env, scope: Scope, o: Out, s: Stmt): (r: (Out, Scope))
    requires s.While? && ScopeBelow(scope, o.nt)
    ensures Extends(WhileBody(env, scope, o, s).0, r.0) && Extends(o, r.0) && ScopeBelow(r.1, r.0.nt)
    decreases s, 1
  {
    var (o3, scope3) := WhileBody(env, scope, o, s);
    (Emit(Emit(o3, Jmp(o.nl)), Label(o.nl + 2)), scope3)
  }

  /** Labels of a do loop: body = nl, test = nl + 1, end = nl + 2. */
  function DoBody(env: Env, scope: Scope, o: Out, s: Stmt): (r: (Out, Scope))
    requires s.DoWhile? && ScopeBelow(scope, o.nt)
    ensures Extends(o, r.0) && ScopeBelow(r.1, r.0.nt)
    decreases s, 0
  {
    GenStmt(env.(brk := o.nl + 2, cont := o.nl + 1), scope, Emit(NewLabels(o, 3), Label(o.nl)), s.body)
  }

  function DoTest(env: Env, scope: Scope, o: Out, s: Stmt): (r: (Out, Operand))
    requires s.DoWhile? && ScopeBelow(scope, o.nt)
    ensures Extends(DoBody(env, scope, o, s).0, r.0) && Extends(o, r.0)
    decreases s, 1
  {
    var (o2, scope2) := DoBody(env, scope, o, s);
    GenExpr(scope2, Emit(o2, Label(o.nl + 1)), s.cond)
  }

  function GenDoWhile(env: Env, scope: Scope, o: Out, s: Stmt): (r: (Out, Scope))
    requires s.DoWhile? && ScopeBelow(scope, o.nt)
    ensures Extends(DoBody(env, scope, o, s).0, r.0) && Extends(o, r.0) && ScopeBelow(r.1, r.0.nt)
    decreases s, 2
  {
    var (o3, v) := DoTest(env, scope, o, s);
    (Emit(Emit(o3, Jnz(v, o.nl)), Label(o.nl + 2)), DoBody(env, scope, o, s).1)
  }

  /** Labels of a for loop: top = nl, body = nl + 1, increment = nl + 2, end = nl + 3. */
  function ForEnv(env: Env, nl: nat): Env {
    env.(brk := nl + 3, cont := nl + 2)
  }

  function ForInit(env: Env, scope: Scope, o: Out, s: Stmt): (r: (Out, Scope))
    requires s.For? && ScopeBelow(scope, o.nt)
    ensures Extends(o, r.0) && ScopeBelow(r.1, r.0.nt)
    decreases s, 0
  {
    GenStmt(ForEnv(env, o.nl), scope, NewLabels(o, 4), s.start)
  }

  function GenFor(env: Env, scope: Scope, o: Out, s: Stmt): (r: (Out, Scope))
    requires s.For? && ScopeBelow(scope, o.nt)
    ensures Extends(ForInit(env, scope, o, s).0, r.0) && Extends(o, r.0) && ScopeBelow(r.1, r.0.nt)
    decreases s, 3
  {
    var (o1, scope1) := ForInit(env, scope, o, s);
    (GenForLoop(ForEnv(env, o.nl), scope1, o1, s, o.nl), scope)
  }

  /** The repeated part of a `for`, from its top label on; `nl` is the first of its four labels. */
  function ForStart(scope: Scope, o: Out, s: Stmt, nl: nat): (r: Out)
    requires s.For? && ScopeBelow(scope, o.nt)
    ensures Extends(o, r) && r.vars == o.vars && o.nt <= r.nt
  {
    Emit(GenTest(scope, Emit(o, Label(nl)), s.test, nl + 3), Label(nl + 1))
  }

  function ForBody(env: Env, scope: Scope, o: Out, s: Stmt, nl: nat): (r: (Out, Scope))
    requires s.For? && ScopeBelow(scope, o.nt)
    ensures Extends(ForStart(scope, o, s, nl), r.0) && Extends(o, r.0) && ScopeBelow(r.1, r.0.nt)
    decreases s, 0
  {
    GenStmt(env, scope, ForStart(scope, o, s, nl), s.body)
  }

  function ForIncr(env: Env, scope: Scope, o: Out, s: Stmt, nl: nat): (r: Out)
    requires s.For? && ScopeBelow(scope, o.nt)
    ensures Extends(ForBody(env, scope, o, s, nl).0, r) && Extends(o, r)
    decreases s, 1
  {
    var (o3, scope3) := ForBody(env, scope, o, s, nl);
    GenOptExpr(scope3, Emit(o3, Label(nl + 2)), s.incr)
  }

  function GenForLoop(env: Env, scope: Scope, o: Out, s: Stmt, nl: nat): (r: Out)
    requires s.For? && ScopeBelow(scope, o.nt)
    ensures Extends(ForBody(env, scope, o, s, nl).0, r) && Extends(o, r)
    decreases s, 2
  {
    Emit(Emit(ForIncr(env, scope, o, s, nl), Jmp(nl)), Label(nl + 3))
  }

  /** Labels of a switch: end = nl, then one for each case and default of the body. */
  function SwitchTable(o: Out, s: Stmt): (c: Collected)
    requires s.Switch?
    ensures c.nl >= o.nl + 1
  {
    CollectCases(s.body, Collected(o.nl + 1, [], 0))
  }

  function SwitchEnv(env: Env, o: Out, s: Stmt): Env
    requires s.Switch?
  {
    env.(brk := o.nl, cases := SwitchTable(o, s).cases, dflt := SwitchTable(o, s).dflt)
  }

  function SwitchStart(scope: Scope, o: Out, s: Stmt): (r: Out)
    requires s.Switch? && ScopeBelow(scope, o.nt)
    ensures Extends(o, r) && r.vars == o.vars && o.nt <= r.nt
  {
    GenDispatch(scope, o.(nl := SwitchTable(o, s).nl), s.e, SwitchTable(o, s), o.nl)
  }

  function SwitchBody(env: Env, scope: Scope, o: Out, s: Stmt): (r: (Out, Scope))
    requires s.Switch? && ScopeBelow(scope, o.nt)
    ensures Extends(SwitchStart(scope, o, s), r.0) && Extends(o, r.0) && ScopeBelow(r.1, r.0.nt)
    decreases s, 0
  {
    GenStmt(SwitchEnv(env, o, s), scope, SwitchStart(scope, o, s), s.body)
  }

  function GenSwitch(env: Env, scope: Scope, o: Out, s: Stmt): (r: (Out, Scope))
    requires s.Switch? && ScopeBelow(scope, o.nt)
    ensures Extends(SwitchBody(env, scope, o, s).0, r.0) && Extends(o, r.0) && ScopeBelow(r.1, r.0.nt)
    decreases s, 1
  {
    var (o2, scope2) := SwitchBody(env, scope, o, s);
    (Emit(o2, Label(o.nl)), scope2)
  }

  /** A parameterless function: label numbers and temporaries start at 1. */
  function GenFunc(body: Stmt): Out {
    var (nl, gotos) := CollectLabels(body, 1, []);
    GenStmt(Env(0, 0, [], 0, gotos), [], Out([], 1, nl, []), body).0
  }
}
