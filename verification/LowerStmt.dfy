/** Lowered statements behave as the source statement: the induction over executions. */
module LowerStmt {
  import opened Wrappers
  import opened Bits
  import opened Ast
  import opened Ir
  import opened IrGen
  import opened Semantics
  import opened Simulation
  import opened Switches
  import LowerExpr

  /** The labels that `break`, `continue` and `goto` use are emitted somewhere in the function. */
  predicate Lands(P: Prog, env: Env) {
    && (env.brk != 0 ==> Find(P.code, env.brk) < |P.code|)
    && (env.cont != 0 ==> Find(P.code, env.cont) < |P.code|)
    && (forall i :: 0 <= i < |env.gotos| ==> Find(P.code, env.gotos[i].1) < |P.code|)
  }

  /** What holds of statement `s` compiled at `o`, whatever state it is run in. */
  ghost predicate Static(P: Prog, env: Env, gs: Scope, o: Out, s: Stmt, ss: Scope) {
    && GoodProg(P) && WellFormed(o) && ScopeBelow(gs, o.nt) && MatchScope(P, gs, ss)
    && Placed(P, o) && Placed(P, GenStmt(env, gs, o, s).0)
    && Shaped(s) && Tables(env, s) && Lands(P, env)
  }

  /** The machine stands at the position of label `l`. */
  predicate AtLabel(P: Prog, st: Store, m: State, l: nat) {
    MatchStore(P, st, m) && m.pc == Find(P.code, l)
  }

  /** Where a statement is entered: its first instruction, or the label it is searched for. */
  predicate Enters(P: Prog, env: Env, o: Out, mode: Mode, st: Store, m: State) {
    && MatchStore(P, st, m)
    && (mode.Run? ==> m.pc == |o.code|)
    && (mode.Seek? ==> TargetLabel(env, mode.t).Some? && m.pc == Find(P.code, TargetLabel(env, mode.t).value))
  }

  predicate Reaches(P: Prog, m: State, k: nat, m1: State, st: Store, l: nat) {
    k >= 1 && Steps(P.code, P.base, m, k) == Status.Run(m1) && AtLabel(P, st, m1, l)
  }

  /**
   How each outcome of the source shows in the machine. Completion reaches the end of the code;
   `break`, `continue` and `goto` reach their label; `return` halts with the value, its
   variables in memory; and a source
   run that uses up its fuel is a machine run of at least that many steps.
   */
  predicate Ends(P: Prog, env: Env, g: (Out, Scope), ss: Scope, fuel: nat, r: Outcome, m: State, k: nat, m1: State) {
    match r
    case Normal(st) => Steps(P.code, P.base, m, k) == Status.Run(m1) && At(P, g.1, g.0, ss, st, m1)
    case Broke(st) => env.brk != 0 ==> Reaches(P, m, k, m1, st, env.brk)
    case Continued(st) => env.cont != 0 ==> Reaches(P, m, k, m1, st, env.cont)
    case Jumped(x, st) => Lookup(env.gotos, x).Some? ==> Reaches(P, m, k, m1, st, Lookup(env.gotos, x).value)
    case Returned(v, st) => Steps(P.code, P.base, m, k) == Halt(v, m1) && MatchStore(P, st, m1)
    case Timeout => k >= fuel && Steps(P.code, P.base, m, k).Run?
    case Undefined => true
  }

  // ----- composing runs -----

  lemma ChainAny(P: Prog, m: State, j: nat, mj: State, k: nat)
    requires Steps(P.code, P.base, m, j) == Status.Run(mj)
    ensures Steps(P.code, P.base, m, j + k) == Steps(P.code, P.base, mj, k)
  {
    StepsAdd(P.code, P.base, m, j, k);
  }

  lemma EndsAfter(P: Prog, env: Env, g: (Out, Scope), ss: Scope, f1: nat, f2: nat, r: Outcome,
                  m: State, j: nat, mj: State, k: nat, m1: State)
    requires Steps(P.code, P.base, m, j) == Status.Run(mj)
    requires Ends(P, env, g, ss, f1, r, mj, k, m1) && f2 <= j + f1
    ensures Ends(P, env, g, ss, f2, r, m, j + k, m1)
  {
    ChainAny(P, m, j, mj, k);
  }

  /** An abrupt outcome means the same for an enclosing statement with the same labels. */
  lemma EndsAbrupt(P: Prog, env1: Env, g1: (Out, Scope), ss1: Scope, env2: Env, g2: (Out, Scope), ss2: Scope,
                   fuel: nat, r: Outcome, m: State, k: nat, m1: State)
    requires Ends(P, env1, g1, ss1, fuel, r, m, k, m1) && !r.Normal?
    requires env1.gotos == env2.gotos
    requires r.Broke? ==> env1.brk == env2.brk
    requires r.Continued? ==> env1.cont == env2.cont
    ensures Ends(P, env2, g2, ss2, fuel, r, m, k, m1)
  {
  }

  // ----- labels and jumps -----

  lemma LabelPlaced(P: Prog, o: Out, l: nat)
    requires GoodProg(P) && Placed(P, Emit(o, Label(l)))
    ensures |o.code| < |P.code| && P.code[|o.code|] == Label(l) && Find(P.code, l) == |o.code|
  {
    CodeAt(P, o, Label(l));
    FindUnique(P.code, l, |o.code|);
  }

  /** Arriving at a label whose place in the code is known. */
  lemma LandAt(P: Prog, gs: Scope, o: Out, l: nat, ss: Scope, st: Store, m: State)
    requires GoodProg(P) && WellFormed(o) && ScopeBelow(gs, o.nt) && MatchScope(P, gs, ss)
    requires Placed(P, o) && Placed(P, Emit(o, Label(l))) && AtLabel(P, st, m, l)
    ensures At(P, gs, o, ss, st, m)
  {
    LabelPlaced(P, o, l);
  }

  lemma PassLabel(P: Prog, gs: Scope, o: Out, l: nat, ss: Scope, st: Store, m: State) returns (m1: State)
    requires At(P, gs, o, ss, st, m) && Placed(P, Emit(o, Label(l)))
    ensures Steps(P.code, P.base, m, 1) == Status.Run(m1)
    ensures At(P, gs, Emit(o, Label(l)), ss, st, m1)
  {
    LabelPlaced(P, o, l);
    m1 := LowerExpr.MoveStep(P, gs, o, Emit(o, Label(l)), ss, st, m);
  }

  lemma JumpTo(P: Prog, o: Out, st: Store, m: State, l: nat) returns (m1: State)
    requires MatchStore(P, st, m) && m.pc == |o.code| && Placed(P, Emit(o, Jmp(l)))
    requires Find(P.code, l) < |P.code|
    ensures Reaches(P, m, 1, m1, st, l)
  {
    CodeAt(P, o, Jmp(l));
    m1 := m.(pc := Find(P.code, l));
    OneStep(P, m, m1);
    MoveKeepsStore(P, st, m, m1.pc);
  }

  /** A conditional jump on a known value. */
  lemma Branch(P: Prog, gs: Scope, o: Out, ss: Scope, st: Store, m: State, i: Instr, x: int) returns (m1: State)
    requires At(P, gs, o, ss, st, m) && Placed(P, Emit(o, i)) && (i.Jz? || i.Jnz?)
    requires Value(m, i.cond) == Some(x) && Find(P.code, i.l) < |P.code|
    ensures m1.temps == m.temps
    ensures (x == 0) == i.Jz? ==> Reaches(P, m, 1, m1, st, i.l)
    ensures (x == 0) != i.Jz? ==>
              Steps(P.code, P.base, m, 1) == Status.Run(m1) && At(P, gs, Emit(o, i), ss, st, m1)
  {
    CodeAt(P, o, i);
    if (x == 0) == i.Jz? {
      m1 := m.(pc := Find(P.code, i.l));
      OneStep(P, m, m1);
      MoveKeepsStore(P, st, m, m1.pc);
    } else {
      m1 := LowerExpr.MoveStep(P, gs, o, Emit(o, i), ss, st, m);
    }
  }

  /** A test of a loop or `if`: on to the next instruction, or to `exit` when the value is zero. */
  lemma TestOk(P: Prog, gs: Scope, o: Out, test: Expr, exit: nat, ss: Scope, st: Store, m: State)
    returns (k: nat, m1: State)
    requires At(P, gs, o, ss, st, m) && Placed(P, GenTest(gs, o, Some(test), exit))
    requires EvalExpr(test, ss, st).Some? && Find(P.code, exit) < |P.code|
    ensures var (x, st1) := EvalExpr(test, ss, st).value;
            if x == 0 then Reaches(P, m, k, m1, st1, exit)
            else k >= 1 && Steps(P.code, P.base, m, k) == Status.Run(m1) &&
                 At(P, gs, GenTest(gs, o, Some(test), exit), ss, st1, m1)
  {
    hide GoodProg, Placed, WellFormed, MatchScope, MatchStore, Steps, Extends;
    var (o1, v) := GenExpr(gs, o, test);
    Grow(o, o1);
    PlacedBefore(P, o1, Emit(o1, Jz(v, exit)));
    var k1, ma := LowerExpr.LowerExprOk(P, gs, o, test, ss, st, m);
    var (x, st1) := EvalExpr(test, ss, st).value;
    m1 := Branch(P, gs, o1, ss, st1, ma, Jz(v, exit), x);
    ChainAny(P, m, k1, ma, 1);
    k := k1 + 1;
  }

  // ----- scopes -----

  /** The generator's scope after a statement binds what the source's does. */
  lemma {:induction false} ScopeMatches(P: Prog, env: Env, gs: Scope, o: Out, s: Stmt, ss: Scope)
    requires GoodProg(P) && WellFormed(o) && ScopeBelow(gs, o.nt) && MatchScope(P, gs, ss)
    requires Placed(P, GenStmt(env, gs, o, s).0)
    ensures MatchScope(P, GenStmt(env, gs, o, s).1, ScopeAfter(s, ss))
    ensures Placed(P, o) && WellFormed(GenStmt(env, gs, o, s).0)
    decreases s, 1
  {
    hide GoodProg, Placed, WellFormed, MatchScope, Extends;
    var (o1, gs1) := GenStmt(env, gs, o, s);
    Grow(o, o1);
    PlacedBefore(P, o, o1);
    match s
    case Then(a, b) =>
      var (o2, gs2) := GenStmt(env, gs, o, a);
      Grow(o, o2);
      PlacedBefore(P, o2, o1);
      ScopeMatches(P, env, gs, o, a, ss);
      ScopeMatches(P, env, gs2, o2, b, ScopeAfter(a, ss));
    case Decl(id, x, init) => DeclScope(P, gs, o, s, ss);
    case If(_, _, _) => IfScope(P, env, gs, o, s, ss);
    case While(_, b) =>
      Grow(o, WhileStart(gs, o, s));
      PlacedBefore(P, WhileBody(env, gs, o, s).0, o1) by { Grow(o, WhileBody(env, gs, o, s).0); }
      ScopeMatches(P, env.(brk := o.nl + 2, cont := o.nl), gs, WhileStart(gs, o, s), b, ss);
    case DoWhile(b, _) =>
      var oL := Emit(NewLabels(o, 3), Label(o.nl));
      Grow(o, NewLabels(o, 3));
      Grow(NewLabels(o, 3), oL);
      PlacedBefore(P, DoBody(env, gs, o, s).0, o1) by { Grow(o, DoBody(env, gs, o, s).0); }
      ScopeMatches(P, env.(brk := o.nl + 2, cont := o.nl + 1), gs, oL, b, ss);
    case Switch(_, b) =>
      Grow(o, SwitchStart(gs, o, s));
      PlacedBefore(P, SwitchBody(env, gs, o, s).0, o1) by { Grow(o, SwitchBody(env, gs, o, s).0); }
      ScopeMatches(P, SwitchEnv(env, o, s), gs, SwitchStart(gs, o, s), b, ss);
    case Case(id, _, b) => LabelScope(P, env, gs, o, FindCase(env.cases, id, false), b, ss);
    case Default(id, b) => LabelScope(P, env, gs, o, FindCase(env.cases, id, true), b, ss);
    case Labelled(x, b) => LabelScope(P, env, gs, o, Lookup(env.gotos, x), b, ss);
    case _ =>
  }

  lemma {:induction false} LabelScope(P: Prog, env: Env, gs: Scope, o: Out, l: Option<nat>, b: Stmt, ss: Scope)
    requires GoodProg(P) && WellFormed(o) && ScopeBelow(gs, o.nt) && MatchScope(P, gs, ss)
    requires Placed(P, GenStmt(env, gs, EmitOptLabel(o, l), b).0)
    ensures MatchScope(P, GenStmt(env, gs, EmitOptLabel(o, l), b).1, ScopeAfter(b, ss))
    decreases b, 2
  {
    Grow(o, EmitOptLabel(o, l));
    ScopeMatches(P, env, gs, EmitOptLabel(o, l), b, ss);
  }

  lemma DeclScope(P: Prog, gs: Scope, o: Out, s: Stmt, ss: Scope)
    requires s.Decl? && GoodProg(P) && ScopeBelow(gs, o.nt) && MatchScope(P, gs, ss)
    requires Placed(P, GenDecl(gs, o, s).0)
    ensures MatchScope(P, [(s.name, o.nt)] + gs, [(s.name, s.id)] + ss)
    ensures |o.vars| < |P.vars| && P.vars[|o.vars|] == (s.id, o.nt) && VarTemp(P.vars, s.id) == Some(o.nt)
  {
    assert GenDecl(gs, o, s).0.vars[|o.vars|] == (s.id, o.nt);
    VarTempAt(P.vars, |o.vars|);
  }

  lemma {:induction false} IfScope(P: Prog, env: Env, gs: Scope, o: Out, s: Stmt, ss: Scope)
    requires s.If? && GoodProg(P) && WellFormed(o) && ScopeBelow(gs, o.nt) && MatchScope(P, gs, ss)
    requires Placed(P, GenIf(env, gs, o, s).0)
    ensures MatchScope(P, IfThen(env, gs, o, s).1, ScopeAfter(s.thn, ss))
    ensures MatchScope(P, GenIf(env, gs, o, s).1, ScopeAfter(s, ss))
    decreases s, 0
  {
    hide GoodProg, Placed, WellFormed, MatchScope, Extends;
    var oT := GenTest(gs, NewLabels(o, 2), Some(s.cond), o.nl);
    var (o2, gs2) := IfThen(env, gs, o, s);
    Grow(o, NewLabels(o, 2));
    Grow(NewLabels(o, 2), oT);
    Grow(o, o2);
    PlacedBefore(P, o2, GenIf(env, gs, o, s).0);
    ScopeMatches(P, env, gs, oT, s.thn, ss);
    if s.els.Some? {
      var oE := Emit(Emit(o2, Jmp(o.nl + 1)), Label(o.nl));
      Grow(o2, Emit(o2, Jmp(o.nl + 1)));
      Grow(Emit(o2, Jmp(o.nl + 1)), oE);
      Grow(o, IfElse(env, gs, o, s).0);
      PlacedBefore(P, IfElse(env, gs, o, s).0, GenIf(env, gs, o, s).0);
      ScopeMatches(P, env, gs2, oE, s.els.value, ScopeAfter(s.thn, ss));
    }
  }

  // ----- the induction -----

  /** `s`, compiled at `o`, is about to run in mode `mode` from machine state `m`. */
  ghost predicate Start(P: Prog, env: Env, gs: Scope, o: Out, s: Stmt, ss: Scope, mode: Mode, st: Store, m: State) {
    Static(P, env, gs, o, s, ss) && Enters(P, env, o, mode, st, m) && (mode.Seek? ==> Has(s, mode.t))
  }

  ghost predicate Sim(P: Prog, env: Env, gs: Scope, o: Out, s: Stmt, ss: Scope,
                      fuel: nat, mode: Mode, st: Store, m: State, k: nat, m1: State)
    requires ScopeBelow(gs, o.nt) && (mode.Seek? ==> Has(s, mode.t))
  {
    Ends(P, env, GenStmt(env, gs, o, s), ScopeAfter(s, ss), fuel, Exec(fuel, mode, s, ss, st), m, k, m1)
  }

  lemma AtStart(P: Prog, env: Env, gs: Scope, o: Out, s: Stmt, ss: Scope, st: Store, m: State)
    requires Static(P, env, gs, o, s, ss) && At(P, gs, o, ss, st, m)
    ensures Start(P, env, gs, o, s, ss, Mode.Run, st, m)
  {
  }

  /**
   Forward simulation of every statement, entered at its start or at a label inside it: whatever
   the source does, the emitted code does.
   */
  lemma {:induction false} LowerStmtOk(P: Prog, env: Env, gs: Scope, o: Out, s: Stmt, ss: Scope,
                                       fuel: nat, mode: Mode, st: Store, m: State)
    returns (k: nat, m1: State)
    requires Start(P, env, gs, o, s, ss, mode, st, m)
    ensures Sim(P, env, gs, o, s, ss, fuel, mode, st, m, k, m1)
    decreases fuel, s, 4
  {
    hide GoodProg, Placed, WellFormed, MatchScope, MatchStore, Lands, Extends;
    match s
    case End =>
      k, m1 := 0, m;
      NoStep(P, m);
    case Then(_, _) => k, m1 := ThenOk(P, env, gs, o, s, ss, fuel, mode, st, m);
    case Compound(_) => k, m1 := CompoundOk(P, env, gs, o, s, ss, fuel, mode, st, m);
    case ExprStmt(_) => k, m1 := ExprStmtOk(P, env, gs, o, s, ss, fuel, st, m);
    case Decl(_, _, _) => k, m1 := DeclOk(P, env, gs, o, s, ss, fuel, st, m);
    case If(_, _, _) => k, m1 := IfOk(P, env, gs, o, s, ss, fuel, mode, st, m);
    case While(_, _) => k, m1 := WhileOk(P, env, gs, o, s, ss, fuel, mode, st, m);
    case DoWhile(_, _) => k, m1 := DoOk(P, env, gs, o, s, ss, fuel, mode, st, m);
    case For(_, _, _, _) => k, m1 := ForOk(P, env, gs, o, s, ss, fuel, mode, st, m);
    case Return(_) => k, m1 := ReturnOk(P, env, gs, o, s, ss, fuel, st, m);
    case Break => k, m1 := ExitOk(P, env, gs, o, s, ss, fuel, st, m);
    case Continue => k, m1 := ExitOk(P, env, gs, o, s, ss, fuel, st, m);
    case Switch(_, _) => k, m1 := SwitchStmtOk(P, env, gs, o, s, ss, fuel, mode, st, m);
    case Case(id, e, b) =>
      assert CaseNode(id, Some(e)) in Cases(s);
      k, m1 := LabelledOk(P, env, gs, o, s, FindCase(env.cases, id, false), b, ss, fuel, mode, st, m);
    case Default(id, b) =>
      assert CaseNode(id, None) in Cases(s);
      k, m1 := LabelledOk(P, env, gs, o, s, FindCase(env.cases, id, true), b, ss, fuel, mode, st, m);
    case Goto(_) => k, m1 := ExitOk(P, env, gs, o, s, ss, fuel, st, m);
    case Labelled(x, b) =>
      assert x in LabelNames(s);
      k, m1 := LabelledOk(P, env, gs, o, s, Lookup(env.gotos, x), b, ss, fuel, mode, st, m);
  }

  lemma StaticThen(P: Prog, env: Env, gs: Scope, o: Out, s: Stmt, ss: Scope)
    requires s.Then? && Static(P, env, gs, o, s, ss)
    ensures var g := GenStmt(env, gs, o, s.s);
            Static(P, env, gs, o, s.s, ss) && Static(P, env, g.1, g.0, s.rest, ScopeAfter(s.s, ss))
  {
    hide GoodProg, Placed, WellFormed, MatchScope, Extends, Lands;
    var g := GenStmt(env, gs, o, s.s);
    Grow(o, g.0);
    PlacedBefore(P, g.0, GenStmt(env, g.1, g.0, s.rest).0);
    ScopeMatches(P, env, gs, o, s.s, ss);
  }

  lemma {:induction false} ThenOk(P: Prog, env: Env, gs: Scope, o: Out, s: Stmt, ss: Scope,
                                  fuel: nat, mode: Mode, st: Store, m: State)
    returns (k: nat, m1: State)
    requires s.Then? && Start(P, env, gs, o, s, ss, mode, st, m)
    ensures Sim(P, env, gs, o, s, ss, fuel, mode, st, m, k, m1)
    decreases fuel, s, 3
  {
    hide GoodProg, Placed, WellFormed, MatchScope, MatchStore, Lands, Extends, Ends;
    StaticThen(P, env, gs, o, s, ss);
    var g := GenStmt(env, gs, o, s.s);
    var ss1 := ScopeAfter(s.s, ss);
    if mode.Seek? && !Has(s.s, mode.t) {
      k, m1 := LowerStmtOk(P, env, g.1, g.0, s.rest, ss1, fuel, mode, st, m);
    } else {
      var k1, ma := LowerStmtOk(P, env, gs, o, s.s, ss, fuel, mode, st, m);
      var r := Exec(fuel, mode, s.s, ss, st);
      if r.Normal? {
        EndsNormal(P, env, g, ss1, fuel, r, m, k1, ma);
        AtStart(P, env, g.1, g.0, s.rest, ss1, r.st, ma);
        var k2;
        k2, m1 := LowerStmtOk(P, env, g.1, g.0, s.rest, ss1, fuel, Mode.Run, r.st, ma);
        EndsAfter(P, env, GenStmt(env, gs, o, s), ScopeAfter(s, ss), fuel, fuel,
                  Exec(fuel, Mode.Run, s.rest, ss1, r.st), m, k1, ma, k2, m1);
        k := k1 + k2;
      } else {
        k, m1 := k1, ma;
        EndsAbrupt(P, env, g, ss1, env, GenStmt(env, gs, o, s), ScopeAfter(s, ss), fuel, r, m, k, m1);
      }
    }
  }

  lemma EndsNormal(P: Prog, env: Env, g: (Out, Scope), ss: Scope, fuel: nat, r: Outcome, m: State, k: nat, m1: State)
    requires Ends(P, env, g, ss, fuel, r, m, k, m1) && r.Normal?
    ensures Steps(P.code, P.base, m, k) == Status.Run(m1) && At(P, g.1, g.0, ss, r.st, m1)
  {
  }

  lemma NormalEnds(P: Prog, env: Env, g: (Out, Scope), ss: Scope, fuel: nat, st: Store, m: State, k: nat, m1: State)
    requires Steps(P.code, P.base, m, k) == Status.Run(m1) && At(P, g.1, g.0, ss, st, m1)
    ensures Ends(P, env, g, ss, fuel, Normal(st), m, k, m1)
  {
  }

  /** Leaving a block restores the outer scope. */
  lemma AtOuter(P: Prog, gs1: Scope, gs: Scope, o: Out, ss1: Scope, ss: Scope, st: Store, m: State)
    requires At(P, gs1, o, ss1, st, m) && ScopeBelow(gs, o.nt) && MatchScope(P, gs, ss)
    ensures At(P, gs, o, ss, st, m)
  {
  }

  lemma {:induction false} CompoundOk(P: Prog, env: Env, gs: Scope, o: Out, s: Stmt, ss: Scope,
                                      fuel: nat, mode: Mode, st: Store, m: State)
    returns (k: nat, m1: State)
    requires s.Compound? && Start(P, env, gs, o, s, ss, mode, st, m)
    ensures Sim(P, env, gs, o, s, ss, fuel, mode, st, m, k, m1)
    decreases fuel, s, 3
  {
    hide MatchStore, Ends, At, GoodProg, Placed, WellFormed, MatchScope, Lands;
    k, m1 := LowerStmtOk(P, env, gs, o, s.body, ss, fuel, mode, st, m);
    var g, ss1, r := GenStmt(env, gs, o, s.body), ScopeAfter(s.body, ss), Exec(fuel, mode, s.body, ss, st);
    if r.Normal? {
      EndsNormal(P, env, g, ss1, fuel, r, m, k, m1);
      AtOuter(P, g.1, gs, g.0, ss1, ss, r.st, m1);
      NormalEnds(P, env, (g.0, gs), ss, fuel, r.st, m, k, m1);
    } else {
      EndsAbrupt(P, env, g, ss1, env, (g.0, gs), ss, fuel, r, m, k, m1);
    }
  }

  lemma ExprStmtOk(P: Prog, env: Env, gs: Scope, o: Out, s: Stmt, ss: Scope, fuel: nat, st: Store, m: State)
    returns (k: nat, m1: State)
    requires s.ExprStmt? && Start(P, env, gs, o, s, ss, Mode.Run, st, m)
    ensures Sim(P, env, gs, o, s, ss, fuel, Mode.Run, st, m, k, m1)
  {
    k, m1 := 0, m;
    if EvalExpr(s.e, ss, st).Some? {
      k, m1 := LowerExpr.LowerExprOk(P, gs, o, s.e, ss, st, m);
    }
  }

  /** Reaching a declaration gives its object its region, with an indeterminate value. */
  lemma AllocaStep(P: Prog, gs: Scope, o: Out, s: Stmt, ss: Scope, st: Store, m: State) returns (m1: State)
    requires s.Decl? && At(P, gs, o, ss, st, m) && Placed(P, GenDecl(gs, o, s).0)
    ensures Steps(P.code, P.base, m, 1) == Status.Run(m1)
    ensures At(P, [(s.name, o.nt)] + gs, GenAlloca(o, s.id), [(s.name, s.id)] + ss, st[s.id := None], m1)
  {
    var o1 := GenAlloca(o, s.id);
    var gs1, ss1, st1 := [(s.name, o.nt)] + gs, [(s.name, s.id)] + ss, st[s.id := None];
    DeclScope(P, gs, o, s, ss);
    Grow(o, o1);
    PlacedBefore(P, o1, GenDecl(gs, o, s).0);
    assert P.code[|o.code|] == o1.code[|o.code|] == Alloca(o.nt, 4, 4);
    m1 := State(m.pc + 1, m.temps[o.nt := P.base[o.nt]], m.mem);
    OneStep(P, m, m1);
    forall id | id in st1
      ensures MatchVar(P, st1, m1, id)
    {
      if id != s.id {
        assert MatchVar(P, st, m, id);
        VarTempIndex(P.vars, id);
      }
    }
  }

  lemma DeclOk(P: Prog, env: Env, gs: Scope, o: Out, s: Stmt, ss: Scope, fuel: nat, st: Store, m: State)
    returns (k: nat, m1: State)
    requires s.Decl? && Start(P, env, gs, o, s, ss, Mode.Run, st, m)
    ensures Sim(P, env, gs, o, s, ss, fuel, Mode.Run, st, m, k, m1)
  {
    hide MatchStore, GoodProg, Placed, WellFormed, MatchScope, Lands, Extends, Steps;
    var ma := AllocaStep(P, gs, o, s, ss, st, m);
    k, m1 := 1, ma;
    var o1 := GenAlloca(o, s.id);
    var gs1, ss1, st1 := [(s.name, o.nt)] + gs, [(s.name, s.id)] + ss, st[s.id := None];
    if s.init.Some? && EvalExpr(s.init.value, ss1, st1).Some? {
      var (o2, v) := GenExpr(gs1, o1, s.init.value);
      var o3 := GenStore(o2, Temp(o.nt), v);
      Grow(o1, o2);
      PlacedBefore(P, o2, o3);
      var k2, mb := LowerExpr.LowerExprOk(P, gs1, o1, s.init.value, ss1, st1, ma);
      var (x, st2) := EvalExpr(s.init.value, ss1, st1).value;
      EvalKeeps(s.init.value, ss1, st1);
      assert Address(gs1, s.name) == Temp(o.nt) && WriteVar(ss1, st2, s.name, x) == Some(st2[s.id := Some(x)]);
      m1 := LowerExpr.StoreStep(P, gs1, o2, o3, ss1, st2, mb, s.name, v, x);
      ChainAny(P, m, 1, ma, k2);
      ChainAny(P, m, 1 + k2, mb, 1);
      k := k2 + 2;
    }
  }

  /** Evaluation never loses an object. */
  lemma EvalKeeps(e: Expr, ss: Scope, st: Store)
    requires EvalExpr(e, ss, st).Some?
    ensures st.Keys <= EvalExpr(e, ss, st).value.1.Keys
  {
  }

  lemma ReturnOk(P: Prog, env: Env, gs: Scope, o: Out, s: Stmt, ss: Scope, fuel: nat, st: Store, m: State)
    returns (k: nat, m1: State)
    requires s.Return? && Start(P, env, gs, o, s, ss, Mode.Run, st, m)
    ensures Sim(P, env, gs, o, s, ss, fuel, Mode.Run, st, m, k, m1)
  {
    hide MatchStore, GoodProg, WellFormed, MatchScope, Lands, Extends, GenExpr, EvalExpr;
    m1 := m;
    if s.ret.None? {
      k := 1;
      CodeAt(P, o, Ret(None));
    } else if EvalExpr(s.ret.value, ss, st).None? {
      k := 0;
    } else {
      k, m1 := ReturnRuns(P, gs, o, s.ret.value, ss, st, m);
    }
  }

  lemma ReturnRuns(P: Prog, gs: Scope, o: Out, e: Expr, ss: Scope, st: Store, m: State)
    returns (k: nat, m1: State)
    requires At(P, gs, o, ss, st, m) && WellFormed(o) && EvalExpr(e, ss, st).Some?
    requires ScopeBelow(gs, o.nt) && Placed(P, Emit(GenExpr(gs, o, e).0, Ret(Some(GenExpr(gs, o, e).1))))
    ensures Steps(P.code, P.base, m, k) == Status.Halt(Some(EvalExpr(e, ss, st).value.0), m1)
    ensures MatchStore(P, EvalExpr(e, ss, st).value.1, m1)
  {
    hide MatchStore, GoodProg, WellFormed, MatchScope, Lands, Extends, GenExpr, EvalExpr;
    var (o1, v) := GenExpr(gs, o, e);
    Grow(o, o1);
    PlacedBefore(P, o1, Emit(o1, Ret(Some(v))));
    var k1;
    k1, m1 := LowerExpr.LowerExprOk(P, gs, o, e, ss, st, m);
    CodeAt(P, o1, Ret(Some(v)));
    ChainAny(P, m, k1, m1, 1);
    k := k1 + 1;
  }

  lemma {:induction false} LookupIndex(gotos: seq<(string, nat)>, x: string)
    requires Lookup(gotos, x).Some?
    ensures exists i :: 0 <= i < |gotos| && gotos[i] == (x, Lookup(gotos, x).value)
  {
    if gotos[0].0 != x {
      LookupIndex(gotos[1..], x);
      var i :| 0 <= i < |gotos[1..]| && gotos[1..][i] == (x, Lookup(gotos, x).value);
      assert gotos[i + 1] == (x, Lookup(gotos, x).value);
    } else {
      assert gotos[0] == (x, Lookup(gotos, x).value);
    }
  }

  /** `break`, `continue` and `goto` jump to their label. */
  lemma ExitOk(P: Prog, env: Env, gs: Scope, o: Out, s: Stmt, ss: Scope, fuel: nat, st: Store, m: State)
    returns (k: nat, m1: State)
    requires (s.Break? || s.Continue? || s.Goto?) && Start(P, env, gs, o, s, ss, Mode.Run, st, m)
    ensures Sim(P, env, gs, o, s, ss, fuel, Mode.Run, st, m, k, m1)
  {
    hide MatchStore, GoodProg, WellFormed, MatchScope, Extends;
    var l := match s
      case Break => if env.brk != 0 then Some(env.brk) else None
      case Continue => if env.cont != 0 then Some(env.cont) else None
      case Goto(x) => Lookup(env.gotos, x);
    k, m1 := 1, m;
    if l.Some? {
      if s.Goto? {
        LookupIndex(env.gotos, s.name);
      }
      m1 := JumpTo(P, o, st, m, l.value);
    }
  }

  lemma LabelledStatic(P: Prog, env: Env, gs: Scope, o: Out, s: Stmt, l: Option<nat>, b: Stmt, ss: Scope)
    requires Static(P, env, gs, o, s, ss) && l.Some?
    requires s == Case(if s.Case? then s.id else 0, if s.Case? then s.e else IntLit(0), b)
          || s == Default(if s.Default? then s.id else 0, b)
          || s == Labelled(if s.Labelled? then s.name else "", b)
    requires GenStmt(env, gs, o, s) == GenStmt(env, gs, EmitOptLabel(o, l), b)
    ensures ScopeBelow(gs, EmitOptLabel(o, l).nt) && Static(P, env, gs, EmitOptLabel(o, l), b, ss)
    ensures EmitOptLabel(o, l) == Emit(o, Label(l.value)) && Placed(P, EmitOptLabel(o, l))
  {
    hide GoodProg, Placed, WellFormed, MatchScope, Extends, Lands, GenStmt;
    var o1 := EmitOptLabel(o, l);
    Grow(o, o1);
    PlacedBefore(P, o1, GenStmt(env, gs, o1, b).0) by { Grow(o1, GenStmt(env, gs, o1, b).0); }
  }

  /** A statement that carries a label: run from above, entered at the label, or searched. */
  lemma {:induction false} LabelledOk(P: Prog, env: Env, gs: Scope, o: Out, s: Stmt, l: Option<nat>, b: Stmt,
                                      ss: Scope, fuel: nat, mode: Mode, st: Store, m: State)
    returns (k: nat, m1: State)
    requires Start(P, env, gs, o, s, ss, mode, st, m) && l.Some?
    requires s == Case(if s.Case? then s.id else 0, if s.Case? then s.e else IntLit(0), b)
          || s == Default(if s.Default? then s.id else 0, b)
          || s == Labelled(if s.Labelled? then s.name else "", b)
    requires mode.Seek? && IsTarget(s, mode.t) ==> TargetLabel(env, mode.t) == l
    requires GenStmt(env, gs, o, s) == GenStmt(env, gs, EmitOptLabel(o, l), b)
    ensures Sim(P, env, gs, o, s, ss, fuel, mode, st, m, k, m1)
    decreases fuel, b, 5
  {
    hide GoodProg, Placed, WellFormed, MatchScope, MatchStore, Ends, Extends, Lands, GenStmt, EmitOptLabel;
    var o1 := EmitOptLabel(o, l);
    LabelledStatic(P, env, gs, o, s, l, b, ss);
    if mode.Seek? && !IsTarget(s, mode.t) {
      k, m1 := LowerStmtOk(P, env, gs, o1, b, ss, fuel, mode, st, m);
    } else {
      if mode.Seek? {
        LandAt(P, gs, o, l.value, ss, st, m);
      }
      var ma := PassLabel(P, gs, o, l.value, ss, st, m);
      var k2;
      k2, m1 := LowerStmtOk(P, env, gs, o1, b, ss, fuel, Mode.Run, st, ma);
      EndsAfter(P, env, GenStmt(env, gs, o, s), ScopeAfter(s, ss), fuel, fuel,
                Exec(fuel, Mode.Run, b, ss, st), m, 1, ma, k2, m1);
      k := 1 + k2;
    }
  }

  // ----- if -----

  /** A statement followed by a label. */
  lemma PassEnds(P: Prog, env: Env, g: (Out, Scope), l: nat, ss: Scope, fuel: nat, r: Outcome,
                 m: State, k: nat, m1: State) returns (k2: nat, m2: State)
    requires Ends(P, env, g, ss, fuel, r, m, k, m1) && Placed(P, Emit(g.0, Label(l)))
    ensures Ends(P, env, (Emit(g.0, Label(l)), g.1), ss, fuel, r, m, k2, m2)
  {
    hide At, Placed;
    k2, m2 := k, m1;
    if r.Normal? {
      m2 := PassLabel(P, g.1, g.0, l, ss, r.st, m1);
      ChainAny(P, m, k, m1, 1);
      k2 := k + 1;
    }
  }

  /** A statement followed by a jump to a label further on. */
  lemma JumpEnds(P: Prog, env: Env, g: (Out, Scope), l: nat, to: (Out, Scope), ss: Scope, ssTo: Scope,
                 fuel: nat, r: Outcome, m: State, k: nat, m1: State) returns (k2: nat, m2: State)
    requires GoodProg(P) && WellFormed(to.0) && ScopeBelow(to.1, to.0.nt) && MatchScope(P, to.1, ssTo)
    requires Ends(P, env, g, ss, fuel, r, m, k, m1) && Placed(P, Emit(g.0, Jmp(l)))
    requires Placed(P, to.0) && Placed(P, Emit(to.0, Label(l)))
    ensures Ends(P, env, (Emit(to.0, Label(l)), to.1), ssTo, fuel, r, m, k2, m2)
  {
    hide GoodProg, Placed, MatchScope, MatchStore, WellFormed;
    k2, m2 := k, m1;
    if r.Normal? {
      LabelPlaced(P, to.0, l);
      var ma := JumpTo(P, g.0, r.st, m1, l);
      LandAt(P, to.1, to.0, l, ssTo, r.st, ma);
      m2 := PassLabel(P, to.1, to.0, l, ssTo, r.st, ma);
      ChainAny(P, m, k, m1, 1);
      ChainAny(P, m, k + 1, ma, 1);
      k2 := k + 2;
    }
  }

  lemma StaticIf(P: Prog, env: Env, gs: Scope, o: Out, s: Stmt, ss: Scope)
    requires s.If? && Static(P, env, gs, o, s, ss)
    ensures var oT := GenTest(gs, NewLabels(o, 2), Some(s.cond), o.nl);
            var (o2, gs2) := IfThen(env, gs, o, s);
            && Static(P, env, gs, oT, s.thn, ss)
            && Placed(P, NewLabels(o, 2)) && WellFormed(NewLabels(o, 2)) && WellFormed(o2)
            && MatchScope(P, gs2, ScopeAfter(s.thn, ss)) && MatchScope(P, GenIf(env, gs, o, s).1, ScopeAfter(s, ss))
            && (s.els.Some? ==>
                  && Static(P, env, gs2, Emit(Emit(o2, Jmp(o.nl + 1)), Label(o.nl)), s.els.value, ScopeAfter(s.thn, ss))
                  && WellFormed(IfElse(env, gs, o, s).0) && Placed(P, IfElse(env, gs, o, s).0)
                  && Placed(P, Emit(o2, Jmp(o.nl + 1))) && WellFormed(Emit(o2, Jmp(o.nl + 1))))
  {
    hide GoodProg, Placed, WellFormed, MatchScope, Extends, Lands;
    var oT := GenTest(gs, NewLabels(o, 2), Some(s.cond), o.nl);
    var (o2, gs2) := IfThen(env, gs, o, s);
    Grow(o, NewLabels(o, 2));
    Grow(NewLabels(o, 2), oT);
    Grow(o, o2);
    IfScope(P, env, gs, o, s, ss);
    if s.els.Some? {
      var o3 := Emit(o2, Jmp(o.nl + 1));
      var oE := Emit(o3, Label(o.nl));
      var o4 := IfElse(env, gs, o, s).0;
      Grow(o2, o3);
      Grow(o3, oE);
      Grow(oE, o4);
      PlacedBefore(P, o4, Emit(o4, Label(o.nl + 1)));
      PlacedBefore(P, oE, o4);
      PlacedBefore(P, o3, oE);
      PlacedBefore(P, o2, o3);
    } else {
      PlacedBefore(P, o2, Emit(o2, Label(o.nl)));
    }
    PlacedBefore(P, oT, o2);
    PlacedBefore(P, NewLabels(o, 2), oT);
  }

  lemma {:induction false} IfOk(P: Prog, env: Env, gs: Scope, o: Out, s: Stmt, ss: Scope,
                                fuel: nat, mode: Mode, st: Store, m: State)
    returns (k: nat, m1: State)
    requires s.If? && Start(P, env, gs, o, s, ss, mode, st, m)
    ensures Sim(P, env, gs, o, s, ss, fuel, mode, st, m, k, m1)
    decreases fuel, s, 3
  {
    hide GoodProg, Placed, WellFormed, MatchScope, MatchStore, Ends, Extends, Lands, Steps;
    StaticIf(P, env, gs, o, s, ss);
    if mode.Seek? {
      if Has(s.thn, mode.t) {
        k, m1 := ThenBranch(P, env, gs, o, s, ss, fuel, mode, st, m);
      } else {
        k, m1 := ElseBranch(P, env, gs, o, s, ss, fuel, mode, st, m);
      }
    } else if EvalExpr(s.cond, ss, st).None? {
      k, m1 := 0, m;
      UndefinedEnds(P, env, GenIf(env, gs, o, s), ScopeAfter(s, ss), fuel, m, k, m1);
    } else {
      var oT := GenTest(gs, NewLabels(o, 2), Some(s.cond), o.nl);
      var (o2, gs2) := IfThen(env, gs, o, s);
      var at := if s.els.Some? then Emit(o2, Jmp(o.nl + 1)) else o2;
      LabelPlaced(P, at, o.nl);
      var k1, ma := TestOk(P, gs, NewLabels(o, 2), s.cond, o.nl, ss, st, m);
      var (x, st1) := EvalExpr(s.cond, ss, st).value;
      var k2;
      if x != 0 {
        AtStart(P, env, gs, oT, s.thn, ss, st1, ma);
        k2, m1 := ThenBranch(P, env, gs, o, s, ss, fuel, mode, st1, ma);
      } else {
        LandAt(P, gs2, at, o.nl, ScopeAfter(s.thn, ss), st1, ma);
        var mb := PassLabel(P, gs2, at, o.nl, ScopeAfter(s.thn, ss), st1, ma);
        if s.els.Some? {
          k2, m1 := ElseBranch(P, env, gs, o, s, ss, fuel, mode, st1, mb);
        } else {
          NoStep(P, mb);
          k2, m1 := 0, mb;
          NormalEnds(P, env, GenIf(env, gs, o, s), ScopeAfter(s, ss), fuel, st1, mb, 0, mb);
        }
        EndsAfter(P, env, GenIf(env, gs, o, s), ScopeAfter(s, ss), fuel, fuel, Exec(fuel, mode, s, ss, st), ma, 1, mb, k2, m1);
        k2 := 1 + k2;
      }
      EndsAfter(P, env, GenIf(env, gs, o, s), ScopeAfter(s, ss), fuel, fuel, Exec(fuel, mode, s, ss, st), m, k1, ma, k2, m1);
      k := k1 + k2;
    }
  }

  lemma UndefinedEnds(P: Prog, env: Env, g: (Out, Scope), ss: Scope, fuel: nat, m: State, k: nat, m1: State)
    ensures Ends(P, env, g, ss, fuel, Undefined, m, k, m1)
  {
  }

  lemma {:induction false} ThenBranch(P: Prog, env: Env, gs: Scope, o: Out, s: Stmt, ss: Scope,
                                      fuel: nat, mode: Mode, st: Store, m: State)
    returns (k: nat, m1: State)
    requires s.If? && Static(P, env, gs, o, s, ss) && (mode.Seek? ==> Has(s.thn, mode.t))
    requires Enters(P, env, GenTest(gs, NewLabels(o, 2), Some(s.cond), o.nl), mode, st, m)
    ensures Ends(P, env, GenIf(env, gs, o, s), ScopeAfter(s, ss), fuel, Exec(fuel, mode, s.thn, ss, st), m, k, m1)
    decreases fuel, s, 2
  {
    hide GoodProg, Placed, WellFormed, MatchScope, MatchStore, Ends, Extends, Lands, Enters;
    StaticIf(P, env, gs, o, s, ss);
    var g := IfThen(env, gs, o, s);
    var ss1 := ScopeAfter(s.thn, ss);
    var r := Exec(fuel, mode, s.thn, ss, st);
    var oT := GenTest(gs, NewLabels(o, 2), Some(s.cond), o.nl);
    k, m1 := LowerStmtOk(P, env, gs, oT, s.thn, ss, fuel, mode, st, m);
    if s.els.Some? {
      k, m1 := JumpEnds(P, env, g, o.nl + 1, IfElse(env, gs, o, s), ss1, ScopeAfter(s, ss), fuel, r, m, k, m1);
    } else {
      k, m1 := PassEnds(P, env, g, o.nl, ss1, fuel, r, m, k, m1);
    }
  }

  lemma {:induction false} ElseBranch(P: Prog, env: Env, gs: Scope, o: Out, s: Stmt, ss: Scope,
                                      fuel: nat, mode: Mode, st: Store, m: State)
    returns (k: nat, m1: State)
    requires s.If? && s.els.Some? && Static(P, env, gs, o, s, ss) && (mode.Seek? ==> Has(s.els.value, mode.t))
    requires Enters(P, env, Emit(Emit(IfThen(env, gs, o, s).0, Jmp(o.nl + 1)), Label(o.nl)), mode, st, m)
    ensures Ends(P, env, GenIf(env, gs, o, s), ScopeAfter(s, ss), fuel,
                 Exec(fuel, mode, s.els.value, ScopeAfter(s.thn, ss), st), m, k, m1)
    decreases fuel, s, 2
  {
    hide GoodProg, Placed, WellFormed, MatchScope, MatchStore, Ends, Extends, Lands, Enters;
    StaticIf(P, env, gs, o, s, ss);
    var (o2, gs2) := IfThen(env, gs, o, s);
    var oE := Emit(Emit(o2, Jmp(o.nl + 1)), Label(o.nl));
    var ss1 := ScopeAfter(s.thn, ss);
    var r := Exec(fuel, mode, s.els.value, ss1, st);
    k, m1 := LowerStmtOk(P, env, gs2, oE, s.els.value, ss1, fuel, mode, st, m);
    k, m1 := PassEnds(P, env, IfElse(env, gs, o, s), o.nl + 1, ScopeAfter(s, ss), fuel, r, m, k, m1);
  }

  // ----- loops -----

  /** Arriving at the end label of a loop or switch completes the statement. */
  lemma LeaveAt(P: Prog, env: Env, g: (Out, Scope), l: nat, ss: Scope, fuel: nat, st: Store,
                m: State, k: nat, m1: State) returns (k2: nat, m2: State)
    requires GoodProg(P) && WellFormed(g.0) && ScopeBelow(g.1, g.0.nt) && MatchScope(P, g.1, ss)
    requires Placed(P, g.0) && Placed(P, Emit(g.0, Label(l)))
    requires Steps(P.code, P.base, m, k) == Status.Run(m1) && AtLabel(P, st, m1, l)
    ensures Ends(P, env, (Emit(g.0, Label(l)), g.1), ss, fuel, Normal(st), m, k2, m2)
  {
    hide GoodProg, Placed, WellFormed, MatchScope, AtLabel;
    LandAt(P, g.1, g.0, l, ss, st, m1);
    m2 := PassLabel(P, g.1, g.0, l, ss, st, m1);
    ChainAny(P, m, k, m1, 1);
    k2 := k + 1;
  }

  function WhileEnv(env: Env, o: Out): Env {
    env.(brk := o.nl + 2, cont := o.nl)
  }

  lemma StaticWhile(P: Prog, env: Env, gs: Scope, o: Out, s: Stmt, ss: Scope)
    requires s.While? && Static(P, env, gs, o, s, ss)
    ensures var oL := NewLabels(o, 3);
            && Placed(P, oL) && WellFormed(oL)
            && Placed(P, Emit(oL, Label(o.nl))) && WellFormed(Emit(oL, Label(o.nl)))
            && Placed(P, GenTest(gs, Emit(oL, Label(o.nl)), Some(s.cond), o.nl + 2))
            && WellFormed(GenTest(gs, Emit(oL, Label(o.nl)), Some(s.cond), o.nl + 2))
            && Static(P, WhileEnv(env, o), gs, WhileStart(gs, o, s), s.body, ss)
    ensures var (oB, gsB) := WhileBody(env, gs, o, s);
            && Placed(P, Emit(oB, Jmp(o.nl))) && WellFormed(Emit(oB, Jmp(o.nl)))
            && MatchScope(P, gsB, ScopeAfter(s, ss))
    ensures var (oB, gsB) := WhileBody(env, gs, o, s);
            && Placed(P, Emit(Emit(oB, Jmp(o.nl)), Label(o.nl + 2)))
            && GenStmt(env, gs, o, s) == (Emit(Emit(oB, Jmp(o.nl)), Label(o.nl + 2)), gsB)
    ensures Find(P.code, o.nl + 2) < |P.code| && Find(P.code, o.nl) == |o.code| < |P.code| && o.nl >= 1
  {
    hide GoodProg, Placed, WellFormed, MatchScope, Extends, Lands;
    var oL := NewLabels(o, 3);
    var oP := Emit(oL, Label(o.nl));
    var oT := GenTest(gs, oP, Some(s.cond), o.nl + 2);
    var oS := WhileStart(gs, o, s);
    var (oB, gsB) := WhileBody(env, gs, o, s);
    var oJ := Emit(oB, Jmp(o.nl));
    Grow(o, oL); Grow(oL, oP); Grow(oP, oT); Grow(oT, oS); Grow(oS, oB); Grow(oB, oJ);
    assert GenWhile(env, gs, o, s) == (Emit(oJ, Label(o.nl + 2)), gsB);
    PlacedBefore(P, oJ, Emit(oJ, Label(o.nl + 2)));
    PlacedBefore(P, oB, oJ);
    PlacedBefore(P, oS, oB);
    PlacedBefore(P, oT, oS);
    PlacedBefore(P, oP, oT);
    PlacedBefore(P, oL, oP);
    ScopeMatches(P, env, gs, o, s, ss);
    LabelPlaced(P, oJ, o.nl + 2);
    LabelPlaced(P, oL, o.nl);
    LabelsFromOne(o);
    assert Lands(P, WhileEnv(env, o)) by { LandsLoop(P, env, o.nl + 2, o.nl); }
  }

  lemma LandsLoop(P: Prog, env: Env, brk: nat, cont: nat)
    requires Lands(P, env) && Find(P.code, brk) < |P.code| && Find(P.code, cont) < |P.code|
    ensures Lands(P, env.(brk := brk, cont := cont))
  {
  }

  /** After the body of a while loop: repeat, leave, or pass the outcome on. */
  lemma {:induction false} WhileAgain(P: Prog, env: Env, gs: Scope, o: Out, s: Stmt, ss: Scope,
                                      fuel: nat, q: Outcome, m: State, k: nat, m1: State)
    returns (k2: nat, m2: State)
    requires s.While? && Static(P, env, gs, o, s, ss)
    requires Ends(P, WhileEnv(env, o), WhileBody(env, gs, o, s), ScopeAfter(s.body, ss), fuel, q, m, k, m1)
    ensures var r := if q.Normal? || q.Continued? then
                       if fuel == 0 then Timeout else Exec(fuel - 1, Mode.Run, s, ss, q.st)
                     else CatchBreak(q);
            Ends(P, env, GenWhile(env, gs, o, s), ScopeAfter(s, ss), fuel, r, m, k2, m2)
    decreases fuel, s, 2
  {
    hide GoodProg, Placed, WellFormed, MatchScope, MatchStore, Extends, Lands, Steps;
    StaticWhile(P, env, gs, o, s, ss);
    var g := WhileBody(env, gs, o, s);
    if q.Normal? || q.Continued? {
      var kj, mj := k, m1;
      if q.Normal? {
        mj := JumpTo(P, g.0, q.st, m1, o.nl);
        ChainAny(P, m, k, m1, 1);
        kj := k + 1;
      }
      assert Start(P, env, gs, o, s, ss, Mode.Run, q.st, mj);
      if fuel == 0 {
        k2, m2 := kj, mj;
      } else {
        k2, m2 := LowerStmtOk(P, env, gs, o, s, ss, fuel - 1, Mode.Run, q.st, mj);
        EndsAfter(P, env, GenWhile(env, gs, o, s), ScopeAfter(s, ss), fuel - 1, fuel,
                  Exec(fuel - 1, Mode.Run, s, ss, q.st), m, kj, mj, k2, m2);
        k2 := kj + k2;
      }
    } else if q.Broke? {
      k2, m2 := LeaveAt(P, env, (Emit(g.0, Jmp(o.nl)), g.1), o.nl + 2, ScopeAfter(s, ss), fuel, q.st, m, k, m1);
    } else {
      k2, m2 := k, m1;
    }
  }

  lemma {:induction false} WhileOk(P: Prog, env: Env, gs: Scope, o: Out, s: Stmt, ss: Scope,
                                   fuel: nat, mode: Mode, st: Store, m: State)
    returns (k: nat, m1: State)
    requires s.While? && Start(P, env, gs, o, s, ss, mode, st, m)
    ensures Sim(P, env, gs, o, s, ss, fuel, mode, st, m, k, m1)
    decreases fuel, s, 3
  {
    hide GoodProg, Placed, WellFormed, MatchScope, MatchStore, Extends, Lands, Steps, Ends;
    StaticWhile(P, env, gs, o, s, ss);
    var env1, oL, oS := WhileEnv(env, o), NewLabels(o, 3), WhileStart(gs, o, s);
    var g, ss1 := GenWhile(env, gs, o, s), ScopeAfter(s, ss);
    if mode.Seek? {
      k, m1 := LowerStmtOk(P, env1, gs, oS, s.body, ss, fuel, mode, st, m);
      k, m1 := WhileAgain(P, env, gs, o, s, ss, fuel, Exec(fuel, mode, s.body, ss, st), m, k, m1);
    } else if EvalExpr(s.cond, ss, st).None? {
      k, m1 := 0, m;
      UndefinedEnds(P, env, g, ss1, fuel, m, k, m1);
    } else {
      var ma := PassLabel(P, gs, oL, o.nl, ss, st, m);
      var k2, mb := TestOk(P, gs, Emit(oL, Label(o.nl)), s.cond, o.nl + 2, ss, st, ma);
      ChainAny(P, m, 1, ma, k2);
      var (x, st1) := EvalExpr(s.cond, ss, st).value;
      if x == 0 {
        var (oB, gsB) := WhileBody(env, gs, o, s);
        k, m1 := LeaveAt(P, env, (Emit(oB, Jmp(o.nl)), gsB), o.nl + 2, ss1, fuel, st1, m, 1 + k2, mb);
      } else {
        var oT := GenTest(gs, Emit(oL, Label(o.nl)), Some(s.cond), o.nl + 2);
        var mc := PassLabel(P, gs, oT, o.nl + 1, ss, st1, mb);
        ChainAny(P, m, 1 + k2, mb, 1);
        AtStart(P, env1, gs, oS, s.body, ss, st1, mc);
        var k3, md := LowerStmtOk(P, env1, gs, oS, s.body, ss, fuel, mode, st1, mc);
        k3, md := WhileAgain(P, env, gs, o, s, ss, fuel, Exec(fuel, mode, s.body, ss, st1), mc, k3, md);
        EndsAfter(P, env, g, ss1, fuel, fuel, Exec(fuel, mode, s, ss, st), m, 2 + k2, mc, k3, md);
        k, m1 := 2 + k2 + k3, md;
      }
    }
  }

  function DoEnv(env: Env, o: Out): Env {
    env.(brk := o.nl + 2, cont := o.nl + 1)
  }

  lemma StaticDo(P: Prog, env: Env, gs: Scope, o: Out, s: Stmt, ss: Scope)
    requires s.DoWhile? && Static(P, env, gs, o, s, ss)
    ensures var oP := Emit(NewLabels(o, 3), Label(o.nl));
            && Placed(P, NewLabels(o, 3)) && WellFormed(NewLabels(o, 3)) && Placed(P, oP)
            && Static(P, DoEnv(env, o), gs, oP, s.body, ss)
    ensures var (oB, gsB) := DoBody(env, gs, o, s);
            && Placed(P, oB) && WellFormed(oB) && MatchScope(P, gsB, ScopeAfter(s, ss))
            && Placed(P, Emit(oB, Label(o.nl + 1))) && WellFormed(Emit(oB, Label(o.nl + 1)))
    ensures var (oT, v) := DoTest(env, gs, o, s);
            && Placed(P, oT) && WellFormed(oT)
            && Placed(P, Emit(oT, Jnz(v, o.nl))) && WellFormed(Emit(oT, Jnz(v, o.nl)))
            && Placed(P, Emit(Emit(oT, Jnz(v, o.nl)), Label(o.nl + 2)))
            && GenStmt(env, gs, o, s) == (Emit(Emit(oT, Jnz(v, o.nl)), Label(o.nl + 2)), DoBody(env, gs, o, s).1)
    ensures Find(P.code, o.nl) == |o.code| < |P.code|
  {
    hide GoodProg, Placed, WellFormed, MatchScope, Extends, Lands;
    var oL := NewLabels(o, 3);
    var oP := Emit(oL, Label(o.nl));
    var (oB, gsB) := DoBody(env, gs, o, s);
    var oC := Emit(oB, Label(o.nl + 1));
    var (oT, v) := DoTest(env, gs, o, s);
    var oJ := Emit(oT, Jnz(v, o.nl));
    Grow(o, oL); Grow(oL, oP); Grow(oP, oB); Grow(oB, oC); Grow(oC, oT); Grow(oT, oJ);
    assert GenDoWhile(env, gs, o, s) == (Emit(oJ, Label(o.nl + 2)), gsB);
    PlacedBefore(P, oJ, Emit(oJ, Label(o.nl + 2)));
    PlacedBefore(P, oT, oJ);
    PlacedBefore(P, oC, oT);
    PlacedBefore(P, oB, oC);
    PlacedBefore(P, oP, oB);
    PlacedBefore(P, oL, oP);
    ScopeMatches(P, env, gs, o, s, ss);
    LabelPlaced(P, oJ, o.nl + 2);
    LabelPlaced(P, oB, o.nl + 1);
    LabelPlaced(P, oL, o.nl);
    assert Lands(P, DoEnv(env, o)) by { LandsLoop(P, env, o.nl + 2, o.nl + 1); }
  }

  /** After the body of a do loop: test, then repeat or leave. */
  lemma {:induction false} DoAgain(P: Prog, env: Env, gs: Scope, o: Out, s: Stmt, ss: Scope,
                                   fuel: nat, q: Outcome, m: State, k: nat, m1: State)
    returns (k2: nat, m2: State)
    requires s.DoWhile? && Static(P, env, gs, o, s, ss)
    requires Ends(P, DoEnv(env, o), DoBody(env, gs, o, s), ScopeAfter(s.body, ss), fuel, q, m, k, m1)
    ensures var r := if q.Normal? || q.Continued? then
                       var t := EvalExpr(s.cond, ScopeAfter(s.body, ss), q.st);
                       if t.None? then Undefined
                       else if t.value.0 == 0 then Normal(t.value.1)
                       else if fuel == 0 then Timeout else Exec(fuel - 1, Mode.Run, s, ss, t.value.1)
                     else CatchBreak(q);
            Ends(P, env, GenDoWhile(env, gs, o, s), ScopeAfter(s, ss), fuel, r, m, k2, m2)
    decreases fuel, s, 2
  {
    hide GoodProg, Placed, WellFormed, MatchScope, MatchStore, Extends, Lands, Steps;
    StaticDo(P, env, gs, o, s, ss);
    var (oB, gsB) := DoBody(env, gs, o, s);
    var (oT, v) := DoTest(env, gs, o, s);
    var oJ, ss1 := Emit(oT, Jnz(v, o.nl)), ScopeAfter(s, ss);
    if q.Normal? || q.Continued? {
      if q.Continued? {
        LandAt(P, gsB, oB, o.nl + 1, ss1, q.st, m1);
      }
      var ma := PassLabel(P, gsB, oB, o.nl + 1, ss1, q.st, m1);
      ChainAny(P, m, k, m1, 1);
      if EvalExpr(s.cond, ss1, q.st).None? {
        k2, m2 := 0, m;
      } else {
        var kt, mt := LowerExpr.LowerExprOk(P, gsB, Emit(oB, Label(o.nl + 1)), s.cond, ss1, q.st, ma);
        var (x, st1) := EvalExpr(s.cond, ss1, q.st).value;
        ChainAny(P, m, k + 1, ma, kt);
        var mj := Branch(P, gsB, oT, ss1, st1, mt, Jnz(v, o.nl), x);
        ChainAny(P, m, k + 1 + kt, mt, 1);
        k2, m2 := DoBranch(P, env, gs, o, s, ss, fuel, st1, x, m, k + 2 + kt, mj);
      }
    } else if q.Broke? {
      k2, m2 := LeaveAt(P, env, (oJ, gsB), o.nl + 2, ss1, fuel, q.st, m, k, m1);
    } else {
      k2, m2 := k, m1;
    }
  }

  /** After the test of a do loop, whose value is `x`. */
  lemma {:induction false} DoBranch(P: Prog, env: Env, gs: Scope, o: Out, s: Stmt, ss: Scope,
                                    fuel: nat, st: Store, x: int, m: State, k: nat, m1: State)
    returns (k2: nat, m2: State)
    requires s.DoWhile? && Static(P, env, gs, o, s, ss) && k >= 1
    requires Steps(P.code, P.base, m, k) == Status.Run(m1)
    requires x != 0 ==> AtLabel(P, st, m1, o.nl)
    requires x == 0 ==> var (oT, v) := DoTest(env, gs, o, s);
               At(P, DoBody(env, gs, o, s).1, Emit(oT, Jnz(v, o.nl)), ScopeAfter(s, ss), st, m1)
    ensures var r := if x == 0 then Normal(st)
                     else if fuel == 0 then Timeout else Exec(fuel - 1, Mode.Run, s, ss, st);
            Ends(P, env, GenDoWhile(env, gs, o, s), ScopeAfter(s, ss), fuel, r, m, k2, m2)
    decreases fuel, s, 1
  {
    hide GoodProg, Placed, WellFormed, MatchScope, MatchStore, Extends, Lands, Steps;
    StaticDo(P, env, gs, o, s, ss);
    var (oT, v) := DoTest(env, gs, o, s);
    var gsB, oJ := DoBody(env, gs, o, s).1, Emit(oT, Jnz(v, o.nl));
    if x == 0 {
      m2 := PassLabel(P, gsB, oJ, o.nl + 2, ScopeAfter(s, ss), st, m1);
      ChainAny(P, m, k, m1, 1);
      k2 := k + 1;
    } else {
      assert Start(P, env, gs, o, s, ss, Mode.Run, st, m1);
      if fuel == 0 {
        k2, m2 := k, m1;
      } else {
        k2, m2 := LowerStmtOk(P, env, gs, o, s, ss, fuel - 1, Mode.Run, st, m1);
        EndsAfter(P, env, GenDoWhile(env, gs, o, s), ScopeAfter(s, ss), fuel - 1, fuel,
                  Exec(fuel - 1, Mode.Run, s, ss, st), m, k, m1, k2, m2);
        k2 := k + k2;
      }
    }
  }

  lemma {:induction false} DoOk(P: Prog, env: Env, gs: Scope, o: Out, s: Stmt, ss: Scope,
                                fuel: nat, mode: Mode, st: Store, m: State)
    returns (k: nat, m1: State)
    requires s.DoWhile? && Start(P, env, gs, o, s, ss, mode, st, m)
    ensures Sim(P, env, gs, o, s, ss, fuel, mode, st, m, k, m1)
    decreases fuel, s, 3
  {
    hide GoodProg, Placed, WellFormed, MatchScope, MatchStore, Extends, Lands, Steps, Ends;
    StaticDo(P, env, gs, o, s, ss);
    var oL := NewLabels(o, 3);
    var oP := Emit(oL, Label(o.nl));
    var j, mj := 0, m;
    NoStep(P, m);
    if mode.Run? {
      mj := PassLabel(P, gs, oL, o.nl, ss, st, m);
      j := 1;
      AtStart(P, DoEnv(env, o), gs, oP, s.body, ss, st, mj);
    }
    k, m1 := LowerStmtOk(P, DoEnv(env, o), gs, oP, s.body, ss, fuel, mode, st, mj);
    k, m1 := DoAgain(P, env, gs, o, s, ss, fuel, Exec(fuel, mode, s.body, ss, st), mj, k, m1);
    EndsAfter(P, env, GenDoWhile(env, gs, o, s), ScopeAfter(s, ss), fuel, fuel, Exec(fuel, mode, s, ss, st), m, j, mj, k, m1);
    k := j + k;
  }

  // ----- for -----

  /** Parts of a `for` after its first clause; `o` is the generator state there, `nl` its first label. */
  ghost predicate StaticFor(P: Prog, env: Env, gs: Scope, o: Out, s: Stmt, nl: nat, ss: Scope)
    requires s.For? && ScopeBelow(gs, o.nt)
  {
    var oP, oS := Emit(o, Label(nl)), ForStart(gs, o, s, nl);
    var (oB, gsB) := ForBody(env, gs, o, s, nl);
    var oC, oI := Emit(oB, Label(nl + 2)), ForIncr(env, gs, o, s, nl);
    var oJ := Emit(oI, Jmp(nl));
    && GoodProg(P) && Placed(P, o) && WellFormed(o) && MatchScope(P, gs, ss)
    && env.brk == nl + 3 && env.cont == nl + 2
    && Placed(P, oP) && WellFormed(oP)
    && Placed(P, GenTest(gs, oP, s.test, nl + 3)) && WellFormed(GenTest(gs, oP, s.test, nl + 3))
    && Static(P, env, gs, oS, s.body, ss)
    && MatchScope(P, gsB, ScopeAfter(s.body, ss))
    && Placed(P, oB) && WellFormed(oB) && Placed(P, oC) && WellFormed(oC)
    && Placed(P, oI) && WellFormed(oI) && Placed(P, oJ) && WellFormed(oJ)
    && Placed(P, Emit(oJ, Label(nl + 3)))
    && Find(P.code, nl) == |o.code| < |P.code|
    && Find(P.code, nl + 2) == |oB.code| < |P.code|
    && Find(P.code, nl + 3) < |P.code|
  }

  lemma ForPlaced(P: Prog, env: Env, gs: Scope, o: Out, s: Stmt, nl: nat)
    requires s.For? && ScopeBelow(gs, o.nt) && GoodProg(P) && WellFormed(o)
    requires Placed(P, GenForLoop(env, gs, o, s, nl))
    ensures var oP, oS := Emit(o, Label(nl)), ForStart(gs, o, s, nl);
            var oB := ForBody(env, gs, o, s, nl).0;
            var oC, oI := Emit(oB, Label(nl + 2)), ForIncr(env, gs, o, s, nl);
            var oJ := Emit(oI, Jmp(nl));
            && Placed(P, o) && Placed(P, oP) && WellFormed(oP)
            && Placed(P, GenTest(gs, oP, s.test, nl + 3)) && WellFormed(GenTest(gs, oP, s.test, nl + 3))
            && Placed(P, oS) && WellFormed(oS)
            && Placed(P, oB) && WellFormed(oB) && Placed(P, oC) && WellFormed(oC)
            && Placed(P, oI) && WellFormed(oI) && Placed(P, oJ) && WellFormed(oJ)
            && Placed(P, Emit(oJ, Label(nl + 3)))
            && Find(P.code, nl) == |o.code| < |P.code|
            && Find(P.code, nl + 2) == |oB.code| < |P.code|
            && Find(P.code, nl + 3) < |P.code|
  {
    hide GoodProg, Placed, WellFormed, MatchScope, Extends, Lands;
    var oP := Emit(o, Label(nl));
    var oT := GenTest(gs, oP, s.test, nl + 3);
    var oS := ForStart(gs, o, s, nl);
    var oB := ForBody(env, gs, o, s, nl).0;
    var oC := Emit(oB, Label(nl + 2));
    var oI := ForIncr(env, gs, o, s, nl);
    var oJ := Emit(oI, Jmp(nl));
    Grow(o, oP); Grow(oP, oT); Grow(oT, oS); Grow(oS, oB); Grow(oB, oC); Grow(oC, oI); Grow(oI, oJ);
    PlacedBefore(P, oJ, Emit(oJ, Label(nl + 3)));
    PlacedBefore(P, oI, oJ);
    PlacedBefore(P, oC, oI);
    PlacedBefore(P, oB, oC);
    PlacedBefore(P, oS, oB);
    PlacedBefore(P, oT, oS);
    PlacedBefore(P, oP, oT);
    PlacedBefore(P, o, oP);
    LabelPlaced(P, o, nl);
    LabelPlaced(P, oB, nl + 2);
    LabelPlaced(P, oJ, nl + 3);
  }

  lemma ForLoopStatic(P: Prog, env: Env, gs: Scope, o: Out, s: Stmt, nl: nat, ss: Scope)
    requires s.For? && ScopeBelow(gs, o.nt) && GoodProg(P) && WellFormed(o) && MatchScope(P, gs, ss)
    requires Placed(P, GenForLoop(env, gs, o, s, nl)) && env.brk == nl + 3 && env.cont == nl + 2
    requires Shaped(s.body) && Tables(env, s.body) && Lands(P, env)
    ensures StaticFor(P, env, gs, o, s, nl, ss)
  {
    hide GoodProg, Placed, WellFormed, MatchScope, Extends, Lands;
    ForPlaced(P, env, gs, o, s, nl);
    ScopeMatches(P, env, gs, ForStart(gs, o, s, nl), s.body, ss);
  }

  lemma ForStatic(P: Prog, env: Env, gs: Scope, o: Out, s: Stmt, ss: Scope)
    requires s.For? && Static(P, env, gs, o, s, ss)
    ensures var (o1, gs1) := ForInit(env, gs, o, s);
            && Static(P, ForEnv(env, o.nl), gs, NewLabels(o, 4), s.start, ss)
            && Enters4(P, o)
            && StaticFor(P, ForEnv(env, o.nl), gs1, o1, s, o.nl, ScopeAfter(s.start, ss))
            && GenStmt(env, gs, o, s) == (GenForLoop(ForEnv(env, o.nl), gs1, o1, s, o.nl), gs)
  {
    hide GoodProg, Placed, WellFormed, MatchScope, Extends, Lands, StaticFor, ForBody, ForIncr, ForStart, GenForLoop,
         GenTest, Find;
    var env1, oL := ForEnv(env, o.nl), NewLabels(o, 4);
    var (o1, gs1) := ForInit(env, gs, o, s);
    assert GenFor(env, gs, o, s) == (GenForLoop(env1, gs1, o1, s, o.nl), gs);
    Grow(o, oL);
    Grow(oL, o1);
    ForPlaced(P, env1, gs1, o1, s, o.nl);
    PlacedBefore(P, oL, o1);
    ScopeMatches(P, env1, gs, oL, s.start, ss);
    ForLoopStatic(P, env1, gs1, o1, s, o.nl, ScopeAfter(s.start, ss)) by {
      LandsLoop(P, env, o.nl + 3, o.nl + 2);
    }
    assert Lands(P, env1) by { LandsLoop(P, env, o.nl + 3, o.nl + 2); }
    SimpleShape(s.start);
  }

  predicate Enters4(P: Prog, o: Out) {
    Placed(P, NewLabels(o, 4)) && WellFormed(NewLabels(o, 4))
  }

  /** A proper first clause contains no switch, no loop and no label. */
  lemma {:induction false} SimpleShape(s: Stmt)
    requires SimpleInit(s)
    ensures Shaped(s) && Cases(s) == [] && LabelNames(s) == []
    decreases s
  {
    if s.Then? {
      SimpleShape(s.s);
      SimpleShape(s.rest);
    }
  }

  lemma {:induction false} SimpleOutcome(s: Stmt, fuel: nat, ss: Scope, st: Store)
    requires SimpleInit(s)
    ensures Exec(fuel, Mode.Run, s, ss, st).Normal? || Exec(fuel, Mode.Run, s, ss, st).Undefined?
    decreases s
  {
    if s.Then? {
      SimpleOutcome(s.s, fuel, ss, st);
      var r := Exec(fuel, Mode.Run, s.s, ss, st);
      if r.Normal? {
        SimpleOutcome(s.rest, fuel, ScopeAfter(s.s, ss), r.st);
      }
    }
  }

  /** The test of a `for`, which may be absent. */
  lemma ForTestOk(P: Prog, env: Env, gs: Scope, o: Out, s: Stmt, nl: nat, ss: Scope, st: Store, m: State)
    returns (k: nat, m1: State)
    requires s.For? && ScopeBelow(gs, o.nt) && StaticFor(P, env, gs, o, s, nl, ss)
    requires At(P, gs, Emit(o, Label(nl)), ss, st, m)
    requires s.test.Some? ==> EvalExpr(s.test.value, ss, st).Some?
    ensures var (x, st1) := if s.test.None? then (1, st) else EvalExpr(s.test.value, ss, st).value;
            if x == 0 then Reaches(P, m, k, m1, st1, nl + 3)
            else Steps(P.code, P.base, m, k) == Status.Run(m1) &&
                 At(P, gs, GenTest(gs, Emit(o, Label(nl)), s.test, nl + 3), ss, st1, m1)
  {
    hide GoodProg, Placed, WellFormed, MatchScope, MatchStore, Extends, Lands, Steps;
    if s.test.None? {
      k, m1 := 0, m;
      NoStep(P, m);
    } else {
      k, m1 := TestOk(P, gs, Emit(o, Label(nl)), s.test.value, nl + 3, ss, st, m);
    }
  }

  /** The repeated part of a `for`, entered at its top label or inside its body. */
  lemma {:induction false} ForLoopOk(P: Prog, env: Env, gs: Scope, o: Out, s: Stmt, nl: nat, ss: Scope,
                                     out: Env, fuel: nat, mode: Mode, st: Store, m: State)
    returns (k: nat, m1: State)
    requires s.For? && ScopeBelow(gs, o.nt) && StaticFor(P, env, gs, o, s, nl, ss) && env == out.(brk := nl + 3, cont := nl + 2)
    requires Enters(P, env, o, mode, st, m) && (mode.Seek? ==> Has(s.body, mode.t))
    ensures Ends(P, out, (GenForLoop(env, gs, o, s, nl), ForBody(env, gs, o, s, nl).1), ScopeAfter(s.body, ss),
                 fuel, ExecFor(fuel, mode, s, ss, st), m, k, m1)
    decreases fuel, s, 2
  {
    hide GoodProg, Placed, WellFormed, MatchScope, MatchStore, Extends, Lands, Steps, Ends;
    var oS, oP := ForStart(gs, o, s, nl), Emit(o, Label(nl));
    var g, ss1 := (GenForLoop(env, gs, o, s, nl), ForBody(env, gs, o, s, nl).1), ScopeAfter(s.body, ss);
    if mode.Seek? {
      k, m1 := LowerStmtOk(P, env, gs, oS, s.body, ss, fuel, mode, st, m);
      k, m1 := ForAgain(P, env, gs, o, s, nl, ss, out, fuel, Exec(fuel, mode, s.body, ss, st), m, k, m1);
    } else if s.test.Some? && EvalExpr(s.test.value, ss, st).None? {
      k, m1 := 0, m;
      UndefinedEnds(P, out, g, ss1, fuel, m, k, m1);
    } else {
      var ma := PassLabel(P, gs, o, nl, ss, st, m);
      var k2, mb := ForTestOk(P, env, gs, o, s, nl, ss, st, ma);
      ChainAny(P, m, 1, ma, k2);
      var (x, st1) := if s.test.None? then (1, st) else EvalExpr(s.test.value, ss, st).value;
      if x == 0 {
        var oJ := Emit(ForIncr(env, gs, o, s, nl), Jmp(nl));
        k, m1 := LeaveAt(P, out, (oJ, g.1), nl + 3, ss1, fuel, st1, m, 1 + k2, mb);
      } else {
        var mc := PassLabel(P, gs, GenTest(gs, oP, s.test, nl + 3), nl + 1, ss, st1, mb);
        ChainAny(P, m, 1 + k2, mb, 1);
        AtStart(P, env, gs, oS, s.body, ss, st1, mc);
        var k3, md := LowerStmtOk(P, env, gs, oS, s.body, ss, fuel, mode, st1, mc);
        k3, md := ForAgain(P, env, gs, o, s, nl, ss, out, fuel, Exec(fuel, mode, s.body, ss, st1), mc, k3, md);
        EndsAfter(P, out, g, ss1, fuel, fuel, ExecFor(fuel, mode, s, ss, st), m, 2 + k2, mc, k3, md);
        k, m1 := 2 + k2 + k3, md;
      }
    }
  }

  /** After the body of a `for`: increment and repeat, leave, or pass the outcome on. */
  lemma {:induction false} ForAgain(P: Prog, env: Env, gs: Scope, o: Out, s: Stmt, nl: nat, ss: Scope,
                                    out: Env, fuel: nat, q: Outcome, m: State, k: nat, m1: State)
    returns (k2: nat, m2: State)
    requires s.For? && ScopeBelow(gs, o.nt) && StaticFor(P, env, gs, o, s, nl, ss) && env == out.(brk := nl + 3, cont := nl + 2)
    requires Ends(P, env, ForBody(env, gs, o, s, nl), ScopeAfter(s.body, ss), fuel, q, m, k, m1)
    ensures var r := if q.Normal? || q.Continued? then
                       var i := if s.incr.None? then Some((0, q.st))
                                else EvalExpr(s.incr.value, ScopeAfter(s.body, ss), q.st);
                       if i.None? then Undefined
                       else if fuel == 0 then Timeout
                       else ExecFor(fuel - 1, Mode.Run, s, ss, i.value.1)
                     else CatchBreak(q);
            Ends(P, out, (GenForLoop(env, gs, o, s, nl), ForBody(env, gs, o, s, nl).1), ScopeAfter(s.body, ss),
                 fuel, r, m, k2, m2)
    decreases fuel, s, 1
  {
    hide GoodProg, Placed, WellFormed, MatchScope, MatchStore, Extends, Lands, Steps;
    var (oB, gsB) := ForBody(env, gs, o, s, nl);
    var oC, oI := Emit(oB, Label(nl + 2)), ForIncr(env, gs, o, s, nl);
    var oJ, ss1 := Emit(oI, Jmp(nl)), ScopeAfter(s.body, ss);
    if q.Normal? || q.Continued? {
      if q.Continued? {
        LandAt(P, gsB, oB, nl + 2, ss1, q.st, m1);
      }
      var ma := PassLabel(P, gsB, oB, nl + 2, ss1, q.st, m1);
      ChainAny(P, m, k, m1, 1);
      if s.incr.Some? && EvalExpr(s.incr.value, ss1, q.st).None? {
        k2, m2 := 0, m;
      } else {
        var kt, mt := 0, ma;
        NoStep(P, ma);
        if s.incr.Some? {
          kt, mt := LowerExpr.LowerExprOk(P, gsB, oC, s.incr.value, ss1, q.st, ma);
        }
        var st1 := if s.incr.None? then q.st else EvalExpr(s.incr.value, ss1, q.st).value.1;
        ChainAny(P, m, k + 1, ma, kt);
        var mj := JumpTo(P, oI, st1, mt, nl);
        ChainAny(P, m, k + 1 + kt, mt, 1);
        if fuel == 0 {
          k2, m2 := k + 2 + kt, mj;
        } else {
          k2, m2 := ForLoopOk(P, env, gs, o, s, nl, ss, out, fuel - 1, Mode.Run, st1, mj);
          EndsAfter(P, out, (GenForLoop(env, gs, o, s, nl), gsB), ss1, fuel - 1, fuel,
                    ExecFor(fuel - 1, Mode.Run, s, ss, st1), m, k + 2 + kt, mj, k2, m2);
          k2 := k + 2 + kt + k2;
        }
      }
    } else if q.Broke? {
      k2, m2 := LeaveAt(P, out, (oJ, gsB), nl + 3, ss1, fuel, q.st, m, k, m1);
    } else {
      k2, m2 := k, m1;
    }
  }

  lemma {:induction false} ForOk(P: Prog, env: Env, gs: Scope, o: Out, s: Stmt, ss: Scope,
                                 fuel: nat, mode: Mode, st: Store, m: State)
    returns (k: nat, m1: State)
    requires s.For? && Start(P, env, gs, o, s, ss, mode, st, m)
    ensures Sim(P, env, gs, o, s, ss, fuel, mode, st, m, k, m1)
    decreases fuel, s, 3
  {
    hide GoodProg, Placed, WellFormed, MatchScope, MatchStore, Extends, Lands, Steps, Ends, StaticFor;
    ForStatic(P, env, gs, o, s, ss);
    var env1, oL := ForEnv(env, o.nl), NewLabels(o, 4);
    var (o1, gs1) := ForInit(env, gs, o, s);
    var ss1 := ScopeAfter(s.start, ss);
    var r := Exec(fuel, mode, s, ss, st);
    if mode.Seek? {
      k, m1 := ForLoopOk(P, env1, gs1, o1, s, o.nl, ss1, env, fuel, mode, st, m);
      ForScope(P, env, gs, o, s, ss, fuel, r, m, k, m1);
    } else {
      SimpleOutcome(s.start, fuel, ss, st);
      var q := Exec(fuel, mode, s.start, ss, st);
      var k1, ma := LowerStmtOk(P, env1, gs, oL, s.start, ss, fuel, mode, st, m);
      if q.Normal? {
        EndsNormal(P, env1, (o1, gs1), ss1, fuel, q, m, k1, ma);
        k, m1 := ForLoopOk(P, env1, gs1, o1, s, o.nl, ss1, env, fuel, mode, q.st, ma);
        ForScope(P, env, gs, o, s, ss, fuel, r, ma, k, m1);
        EndsAfter(P, env, GenStmt(env, gs, o, s), ss, fuel, fuel, r, m, k1, ma, k, m1);
        k := k1 + k;
      } else {
        k, m1 := k1, ma;
        UndefinedEnds(P, env, GenStmt(env, gs, o, s), ss, fuel, m, k, m1);
      }
    }
  }

  /** A `for` statement ends in its outer scope. */
  lemma ForScope(P: Prog, env: Env, gs: Scope, o: Out, s: Stmt, ss: Scope, fuel: nat, r: Outcome,
                 m: State, k: nat, m1: State)
    requires s.For? && Static(P, env, gs, o, s, ss)
    requires var (o1, gs1) := ForInit(env, gs, o, s);
             var env1 := ForEnv(env, o.nl);
             Ends(P, env, (GenForLoop(env1, gs1, o1, s, o.nl), ForBody(env1, gs1, o1, s, o.nl).1),
                  ScopeAfter(s.body, ScopeAfter(s.start, ss)), fuel, r, m, k, m1)
    ensures Ends(P, env, GenStmt(env, gs, o, s), ss, fuel, r, m, k, m1)
  {
    hide GoodProg, Placed, WellFormed, MatchScope, MatchStore, Extends, Lands, Steps;
    assert GenStmt(env, gs, o, s) == GenFor(env, gs, o, s);
    if r.Normal? {
      var (o1, gs1) := ForInit(env, gs, o, s);
      var env1 := ForEnv(env, o.nl);
      AtOuter(P, ForBody(env1, gs1, o1, s, o.nl).1, gs, GenFor(env, gs, o, s).0,
              ScopeAfter(s.body, ScopeAfter(s.start, ss)), ss, r.st, m1);
    }
  }

  // ----- switch -----

  lemma EmittedFound(P: Prog, o: Out, l: nat)
    requires Placed(P, o) && Emitted(o.code, l)
    ensures Find(P.code, l) < |P.code|
  {
    var i :| 0 <= i < |o.code| && o.code[i] == Label(l);
    assert P.code[i] == Label(l);
  }

  lemma TestsGrow(P: Prog, o: Out, sv: nat, cases: seq<CaseEntry>)
    requires cases != [] && !cases[0].isDefault && WellFormed(o) && Placed(P, EmitTests(o, sv, cases))
    ensures var o1 := Emit(NewTemp(o), Bin(Eq, o.nt, Temp(sv), Imm(cases[0].val), false));
            var o2 := Emit(o1, Jnz(Temp(o.nt), cases[0].target));
            && Placed(P, o1) && WellFormed(o1) && Placed(P, o2) && WellFormed(o2)
            && EmitTests(o, sv, cases) == EmitTests(o2, sv, cases[1..])
  {
    hide Placed, WellFormed, Extends;
    var o1 := Emit(NewTemp(o), Bin(Eq, o.nt, Temp(sv), Imm(cases[0].val), false));
    var o2 := Emit(o1, Jnz(Temp(o.nt), cases[0].target));
    Grow(o, NewTemp(o));
    Grow(NewTemp(o), o1);
    Grow(o1, o2);
    PlacedBefore(P, o2, EmitTests(o2, sv, cases[1..]));
    PlacedBefore(P, o1, o2);
  }

  /** The comparison chain leaves at the first entry for the value, or falls through. */
  lemma {:induction false} TestsOk(P: Prog, gs: Scope, o: Out, sv: nat, cases: seq<CaseEntry>, v: int,
                                   ss: Scope, st: Store, m: State)
    returns (k: nat, m1: State)
    requires At(P, gs, o, ss, st, m) && Placed(P, EmitTests(o, sv, cases))
    requires sv < o.nt && Value(m, Temp(sv)) == Some(v) && IntCases(cases)
    requires FindVal(cases, v).Some? ==> Find(P.code, FindVal(cases, v).value) < |P.code|
    ensures if FindVal(cases, v).Some? then Reaches(P, m, k, m1, st, FindVal(cases, v).value)
            else Steps(P.code, P.base, m, k) == Status.Run(m1) && At(P, gs, EmitTests(o, sv, cases), ss, st, m1)
    decreases cases
  {
    hide GoodProg, Placed, WellFormed, MatchScope, MatchStore, Extends, Steps;
    if cases == [] {
      k, m1 := 0, m;
      NoStep(P, m);
    } else if cases[0].isDefault {
      k, m1 := TestsOk(P, gs, o, sv, cases[1..], v, ss, st, m);
    } else {
      TestsGrow(P, o, sv, cases);
      var o1 := Emit(NewTemp(o), Bin(Eq, o.nt, Temp(sv), Imm(cases[0].val), false));
      var jnz := Jnz(Temp(o.nt), cases[0].target);
      var ma := LowerExpr.BinStep(P, gs, o, ss, st, m, Eq, Temp(sv), Imm(cases[0].val), v, cases[0].val);
      if cases[0].val == v {
        m1 := Branch(P, gs, o1, ss, st, ma, jnz, 1);
        ChainAny(P, m, 1, ma, 1);
        k := 2;
      } else {
        m1 := SkipTest(P, gs, o1, ss, st, ma, jnz);
        ChainAny(P, m, 1, ma, 1);
        var mb := m1;
        k, m1 := TestsOk(P, gs, Emit(o1, jnz), sv, cases[1..], v, ss, st, mb);
        ChainAny(P, m, 2, mb, k);
        k := k + 2;
      }
    }
  }

  /** A comparison that failed falls through, wherever its label is. */
  lemma SkipTest(P: Prog, gs: Scope, o: Out, ss: Scope, st: Store, m: State, i: Instr) returns (m1: State)
    requires At(P, gs, o, ss, st, m) && Placed(P, Emit(o, i)) && i.Jnz? && Value(m, i.cond) == Some(0)
    ensures m1.temps == m.temps
    ensures Steps(P.code, P.base, m, 1) == Status.Run(m1) && At(P, gs, Emit(o, i), ss, st, m1)
  {
    CodeAt(P, o, i);
    m1 := LowerExpr.MoveStep(P, gs, o, Emit(o, i), ss, st, m);
  }

  /** Where a switch on `v` goes after its comparisons and its default jump. */
  function DispatchLabel(c: Collected, end: nat, v: int): nat {
    if FindVal(c.cases, v).Some? then FindVal(c.cases, v).value
    else if c.dflt != 0 then c.dflt else end
  }

  lemma DispatchGrow(P: Prog, gs: Scope, o: Out, e: Expr, c: Collected, end: nat)
    requires ScopeBelow(gs, o.nt) && WellFormed(o) && Placed(P, GenDispatch(gs, o, e, c, end))
    ensures var (o1, v) := GenExpr(gs, o, e);
            var o2 := Emit(NewTemp(o1), Copy(o1.nt, v));
            var o3 := EmitTests(o2, o1.nt, c.cases);
            && Placed(P, o1) && WellFormed(o1) && Placed(P, o2) && WellFormed(o2)
            && Placed(P, o3) && WellFormed(o3) && !IsVarTemp(P, o1.nt) && o1.nt < o2.nt && Extends(o1, o2)
            && GenDispatch(gs, o, e, c, end) == Emit(o3, Jmp(if c.dflt != 0 then c.dflt else end))
  {
    hide Placed, WellFormed, IsVarTemp;
    var (o1, v) := GenExpr(gs, o, e);
    var o2 := Emit(NewTemp(o1), Copy(o1.nt, v));
    var o3 := EmitTests(o2, o1.nt, c.cases);
    Grow(o, o1);
    Grow(o1, NewTemp(o1));
    Grow(NewTemp(o1), o2);
    Grow(o2, o3);
    PlacedBefore(P, o3, Emit(o3, Jmp(if c.dflt != 0 then c.dflt else end)));
    PlacedBefore(P, o2, o3);
    PlacedBefore(P, NewTemp(o1), o2);
    PlacedBefore(P, o1, NewTemp(o1));
    FreshTemp(P, o1, o2, o1.nt);
  }

  lemma DispatchOk(P: Prog, gs: Scope, o: Out, e: Expr, c: Collected, end: nat, ss: Scope, st: Store, m: State)
    returns (k: nat, m1: State)
    requires At(P, gs, o, ss, st, m) && Placed(P, GenDispatch(gs, o, e, c, end)) && EvalExpr(e, ss, st).Some?
    requires Find(P.code, DispatchLabel(c, end, EvalExpr(e, ss, st).value.0)) < |P.code|
    requires IntCases(c.cases)
    ensures var (v, st1) := EvalExpr(e, ss, st).value;
            Reaches(P, m, k, m1, st1, DispatchLabel(c, end, v))
  {
    hide GoodProg, Placed, WellFormed, MatchScope, MatchStore, Extends, Steps, IsVarTemp;
    DispatchGrow(P, gs, o, e, c, end);
    var (o1, w) := GenExpr(gs, o, e);
    var o2 := Emit(NewTemp(o1), Copy(o1.nt, w));
    var o3 := EmitTests(o2, o1.nt, c.cases);
    var k1, ma := LowerExpr.LowerExprOk(P, gs, o, e, ss, st, m);
    var (v, st1) := EvalExpr(e, ss, st).value;
    CodeAt(P, NewTemp(o1), Copy(o1.nt, w));
    var mb := LowerExpr.SetStep(P, gs, o1, o2, ss, st1, ma, o1.nt, v);
    ChainAny(P, m, k1, ma, 1);
    var k2, mc := TestsOk(P, gs, o2, o1.nt, c.cases, v, ss, st1, mb);
    ChainAny(P, m, k1 + 1, mb, k2);
    if FindVal(c.cases, v).Some? {
      k, m1 := k1 + 1 + k2, mc;
    } else {
      m1 := JumpTo(P, o3, st1, mc, if c.dflt != 0 then c.dflt else end);
      ChainAny(P, m, k1 + 1 + k2, mc, 1);
      k := k1 + 2 + k2;
    }
  }

  lemma StaticSwitch(P: Prog, env: Env, gs: Scope, o: Out, s: Stmt, ss: Scope)
    requires s.Switch? && Static(P, env, gs, o, s, ss)
    ensures var oN := o.(nl := SwitchTable(o, s).nl);
            && Placed(P, oN) && WellFormed(oN) && Placed(P, SwitchStart(gs, o, s))
            && Static(P, SwitchEnv(env, o, s), gs, SwitchStart(gs, o, s), s.body, ss)
    ensures var (o2, gs2) := SwitchBody(env, gs, o, s);
            && Placed(P, o2) && WellFormed(o2) && Placed(P, Emit(o2, Label(o.nl)))
            && MatchScope(P, gs2, ScopeAfter(s, ss))
            && GenStmt(env, gs, o, s) == (Emit(o2, Label(o.nl)), gs2)
            && Find(P.code, o.nl) == |o2.code| < |P.code|
    ensures o.nl >= 1
  {
    hide GoodProg, Placed, WellFormed, MatchScope, Extends, Lands;
    var oN, oS := o.(nl := SwitchTable(o, s).nl), SwitchStart(gs, o, s);
    var (o2, gs2) := SwitchBody(env, gs, o, s);
    var env1 := SwitchEnv(env, o, s);
    assert GenSwitch(env, gs, o, s) == (Emit(o2, Label(o.nl)), gs2);
    LabelsFromOne(o);
    MoreLabels(P, o, oN);
    Grow(oN, oS);
    Grow(oS, o2);
    PlacedBefore(P, o2, Emit(o2, Label(o.nl)));
    PlacedBefore(P, oS, o2);
    ScopeMatches(P, env, gs, o, s, ss);
    LabelPlaced(P, o2, o.nl);
    CollectedTables(s.body, o.nl + 1, env1);
    assert Lands(P, env1) by { LandsSwitch(P, env, env1); }
  }

  lemma MoreLabels(P: Prog, o: Out, o1: Out)
    requires Placed(P, o) && WellFormed(o) && o1 == o.(nl := o1.nl) && o.nl <= o1.nl
    ensures Placed(P, o1) && WellFormed(o1)
  {
  }

  lemma LandsSwitch(P: Prog, env: Env, env1: Env)
    requires Lands(P, env) && Find(P.code, env1.brk) < |P.code| && env1.cont == env.cont && env1.gotos == env.gotos
    ensures Lands(P, env1)
  {
  }

  /** After the body of a switch. */
  lemma SwitchEnd(P: Prog, env: Env, gs: Scope, o: Out, s: Stmt, ss: Scope, fuel: nat, q: Outcome,
                  m: State, k: nat, m1: State) returns (k2: nat, m2: State)
    requires s.Switch? && Static(P, env, gs, o, s, ss)
    requires Ends(P, SwitchEnv(env, o, s), SwitchBody(env, gs, o, s), ScopeAfter(s.body, ss), fuel, q, m, k, m1)
    ensures Ends(P, env, GenStmt(env, gs, o, s), ScopeAfter(s, ss), fuel, CatchBreak(q), m, k2, m2)
  {
    hide GoodProg, Placed, WellFormed, MatchScope, MatchStore, Extends, Lands, Steps;
    StaticSwitch(P, env, gs, o, s, ss);
    var g := SwitchBody(env, gs, o, s);
    if q.Broke? {
      k2, m2 := LeaveAt(P, env, g, o.nl, ScopeAfter(s, ss), fuel, q.st, m, k, m1);
    } else if q.Normal? {
      k2, m2 := PassEnds(P, SwitchEnv(env, o, s), g, o.nl, ScopeAfter(s.body, ss), fuel, q, m, k, m1);
    } else {
      k2, m2 := k, m1;
    }
  }

  /** The entry the source chooses is a label the machine can jump to, and the one it does jump to. */
  lemma EntryFound(P: Prog, env: Env, gs: Scope, o: Out, s: Stmt, ss: Scope, v: int)
    requires s.Switch? && Static(P, env, gs, o, s, ss)
    ensures Find(P.code, DispatchLabel(SwitchTable(o, s), o.nl, v)) < |P.code|
    ensures Entry(s.body, v).Some? ==>
              TargetLabel(SwitchEnv(env, o, s), Entry(s.body, v).value) == Some(DispatchLabel(SwitchTable(o, s), o.nl, v))
    ensures Entry(s.body, v).None? ==> DispatchLabel(SwitchTable(o, s), o.nl, v) == o.nl
  {
    hide GoodProg, Placed, WellFormed, MatchScope, Extends, Lands;
    StaticSwitch(P, env, gs, o, s, ss);
    var env1 := SwitchEnv(env, o, s);
    DispatchTarget(s.body, o.nl + 1, v, env1);
    var t := Entry(s.body, v);
    if t.Some? {
      TargetEmitted(env1, gs, SwitchStart(gs, o, s), s.body, t.value);
      EmittedFound(P, SwitchBody(env, gs, o, s).0, TargetLabel(env1, t.value).value);
    }
  }

  lemma {:induction false} SwitchStmtOk(P: Prog, env: Env, gs: Scope, o: Out, s: Stmt, ss: Scope,
                                        fuel: nat, mode: Mode, st: Store, m: State)
    returns (k: nat, m1: State)
    requires s.Switch? && Start(P, env, gs, o, s, ss, mode, st, m)
    ensures Sim(P, env, gs, o, s, ss, fuel, mode, st, m, k, m1)
    decreases fuel, s, 3
  {
    hide GoodProg, Placed, WellFormed, MatchScope, MatchStore, Extends, Lands, Steps, Ends;
    StaticSwitch(P, env, gs, o, s, ss);
    var env1, oS := SwitchEnv(env, o, s), SwitchStart(gs, o, s);
    var g, ss1 := GenStmt(env, gs, o, s), ScopeAfter(s, ss);
    if mode.Seek? {
      k, m1 := LowerStmtOk(P, env1, gs, oS, s.body, ss, fuel, mode, st, m);
      k, m1 := SwitchEnd(P, env, gs, o, s, ss, fuel, Exec(fuel, mode, s.body, ss, st), m, k, m1);
    } else if EvalExpr(s.e, ss, st).None? {
      k, m1 := 0, m;
      UndefinedEnds(P, env, g, ss1, fuel, m, k, m1);
    } else {
      var (v, st1) := EvalExpr(s.e, ss, st).value;
      var c := SwitchTable(o, s);
      EntryFound(P, env, gs, o, s, ss, v);
      CollectedInts(s.body, o.nl + 1);
      var k1, ma := DispatchOk(P, gs, o.(nl := c.nl), s.e, c, o.nl, ss, st, m);
      var t := Entry(s.body, v);
      if t.None? {
        k, m1 := LeaveAt(P, env, SwitchBody(env, gs, o, s), o.nl, ss1, fuel, st1, m, k1, ma);
      } else {
        var k2, mb := LowerStmtOk(P, env1, gs, oS, s.body, ss, fuel, Seek(t.value), st1, ma);
        k2, mb := SwitchEnd(P, env, gs, o, s, ss, fuel, Exec(fuel, Seek(t.value), s.body, ss, st1), ma, k2, mb);
        EndsAfter(P, env, g, ss1, fuel, fuel, Exec(fuel, mode, s, ss, st), m, k1, ma, k2, mb);
        k, m1 := k1 + k2, mb;
      }
    }
  }
}
