/**
 The generator as the code it is: one object whose methods append instructions, bump two
 counters, and save and restore the scope, the loop labels and the switch tables. Every method
 is proved against the functions of module IrGen.
 */
module IrGenerator {
  import opened Wrappers
  import opened Ast
  import opened Ir
  import G = IrGen

  class Generator {
    var instrs: seq<Instr>
    var nextTemp: nat
    var nextLabel: nat
    var scope: Scope
    var breakLabel: nat
    var contLabel: nat
    var caseEntries: seq<G.CaseEntry>
    var swDefaultLabel: nat
    var gotoLabels: seq<(string, nat)>
    /** The temporary that addresses each declaration, in order of allocation. */
    ghost var vars: seq<(nat, nat)>

    ghost function Output(): G.Out
      reads this
    {
      G.Out(instrs, nextTemp, nextLabel, vars)
    }

    ghost function Context(): G.Env
      reads this
    {
      G.Env(breakLabel, contLabel, caseEntries, swDefaultLabel, gotoLabels)
    }

    ghost predicate Valid()
      reads this
    {
      G.ScopeBelow(scope, nextTemp)
    }

    constructor ()
      ensures Valid() && Output() == G.Out([], 1, 1, [])
      ensures Context() == G.Env(0, 0, [], 0, []) && scope == []
    {
      instrs, nextTemp, nextLabel := [], 1, 1;
      scope, breakLabel, contLabel, caseEntries, swDefaultLabel, gotoLabels := [], 0, 0, [], 0, [];
      vars := [];
    }

    // ----- ir.c -----

    method NewTemp() returns (t: nat)
      modifies this`nextTemp
      ensures t == old(nextTemp) && Output() == G.NewTemp(old(Output()))
      ensures old(Valid()) ==> Valid()
    {
      t := nextTemp;
      nextTemp := nextTemp + 1;
    }

    method NewLabel() returns (l: nat)
      modifies this`nextLabel
      ensures l == old(nextLabel) && Output() == G.NewLabels(old(Output()), 1)
    {
      l := nextLabel;
      nextLabel := nextLabel + 1;
    }

    method Emit(i: Instr)
      modifies this`instrs
      ensures Output() == G.Emit(old(Output()), i)
    {
      instrs := instrs + [i];
    }

    // ----- loads, stores and allocas -----

    method GenLoad(addr: Operand) returns (v: Operand)
      modifies this`instrs, this`nextTemp
      ensures Output() == G.GenLoad(old(Output()), addr) && v == Temp(old(nextTemp))
      ensures old(Valid()) ==> Valid()
    {
      var t := NewTemp();
      Emit(Load(t, addr, 4, true));
      v := Temp(t);
    }

    method GenStore(addr: Operand, v: Operand)
      modifies this`instrs
      ensures Output() == G.GenStore(old(Output()), addr, v)
    {
      Emit(Store(addr, v, 4));
    }

    method GenAlloca(ghost id: nat) returns (addr: Operand)
      modifies this`instrs, this`nextTemp, this`vars
      ensures Output() == G.GenAlloca(old(Output()), id) && addr == Temp(old(nextTemp))
      ensures old(Valid()) ==> Valid()
    {
      var t := NewTemp();
      Emit(Alloca(t, 4, 4));
      vars := vars + [(id, t)];
      addr := Temp(t);
    }

    method GenLvalue(x: string) returns (addr: Operand)
      ensures addr == G.Address(scope, x)
    {
      var t := Lookup(scope, x);
      addr := if t.Some? then Temp(t.value) else Global(x);
    }

    // ----- expressions -----

    method GenExpr(e: Expr) returns (v: Operand)
      requires Valid()
      modifies this`instrs, this`nextTemp, this`nextLabel
      ensures (Output(), v) == G.GenExpr(scope, old(Output()), e) && Valid()
      decreases e, 1
    {
      match e
      case IntLit(n) => v := Imm(n);
      case Ident(x) =>
        v := GenLvalue(x);
        if v.Temp? {
          v := GenLoad(v);
        }
      case Unary(op, a) =>
        var operand := GenExpr(a);
        v := GenUnary(op, operand);
      case PreIncDec(inc, x) => v := GenStep(x, inc, false);
      case PostIncDec(inc, x) => v := GenStep(x, inc, true);
      case Binary(op, a, b) =>
        var lv := GenExpr(a);
        var rv := GenExpr(b);
        var t := NewTemp();
        Emit(Bin(op, t, lv, rv, false));
        v := Temp(t);
      case LogAnd(a, b) => v := GenLogical(e);
      case LogOr(a, b) => v := GenLogical(e);
      case Assign(x, a) =>
        var addr := GenLvalue(x);
        v := GenExpr(a);
        GenStore(addr, v);
      case CompoundAssign(op, x, a) => v := GenCompound(e);
      case Ternary(c, a, b) => v := GenTernary(e);
      case Comma(a, b) =>
        var ignored := GenExpr(a);
        v := GenExpr(b);
    }

    method GenUnary(op: UnaryOp, operand: Operand) returns (v: Operand)
      requires Valid() && G.Below(operand, nextTemp)
      modifies this`instrs, this`nextTemp
      ensures (Output(), v) == G.GenUnary(old(Output()), op, operand) && Valid()
    {
      var t := NewTemp();
      v := Temp(t);
      match op
      case Minus => Emit(Un(Neg, t, operand));
      case Tilde => Emit(Un(Not, t, operand));
      case Bang => Emit(Bin(Eq, t, operand, Imm(0), false));
      case Plus => v := operand;
    }

    method GenStep(x: string, inc: bool, post: bool) returns (v: Operand)
      requires Valid()
      modifies this`instrs, this`nextTemp
      ensures (Output(), v) == G.GenStep(scope, old(Output()), x, inc, post) && Valid()
    {
      var addr := GenLvalue(x);
      var before := GenLoad(addr);
      var t := NewTemp();
      Emit(Bin(if inc then Add else Sub, t, before, Imm(1), false));
      GenStore(addr, Temp(t));
      v := if post then before else Temp(t);
    }

    method GenLogical(e: Expr) returns (v: Operand)
      requires Valid() && (e.LogAnd? || e.LogOr?)
      modifies this`instrs, this`nextTemp, this`nextLabel
      ensures (Output(), v) == G.GenExpr(scope, old(Output()), e) && Valid()
      decreases e, 0
    {
      hide G.Extends;
      var result := NewTemp();
      var endLabel := NewLabel();
      var falseLabel := NewLabel();
      var trueLabel := NewLabel();
      assert Output() == G.NewLabels(G.NewTemp(old(Output())), 3);
      var lv := GenExpr(e.left);
      if e.LogAnd? {
        Emit(Jz(lv, falseLabel));
        var rv := GenExpr(e.right);
        ghost var before := Output();
        FinishAnd(result, rv, endLabel, falseLabel, trueLabel);
        assert Output() == G.FinishAnd(before, rv, result, endLabel);
      } else {
        Emit(Jnz(lv, trueLabel));
        var rv := GenExpr(e.right);
        ghost var before := Output();
        FinishOr(result, rv, endLabel, trueLabel);
        assert Output() == G.FinishOr(before, rv, result, endLabel);
      }
      v := Temp(result);
    }

    method FinishAnd(result: nat, rv: Operand, endLabel: nat, falseLabel: nat, trueLabel: nat)
      modifies this`instrs
      ensures instrs == old(instrs) + [Jnz(rv, trueLabel), Jmp(falseLabel), Label(falseLabel), Copy(result, Imm(0)),
                                       Jmp(endLabel), Label(trueLabel), Copy(result, Imm(1)), Label(endLabel)]
    {
      Emit(Jnz(rv, trueLabel));
      Emit(Jmp(falseLabel));
      Emit(Label(falseLabel));
      Emit(Copy(result, Imm(0)));
      Emit(Jmp(endLabel));
      Emit(Label(trueLabel));
      Emit(Copy(result, Imm(1)));
      Emit(Label(endLabel));
    }

    method FinishOr(result: nat, rv: Operand, endLabel: nat, trueLabel: nat)
      modifies this`instrs
      ensures instrs == old(instrs) + [Jnz(rv, trueLabel), Copy(result, Imm(0)), Jmp(endLabel), Label(trueLabel),
                                       Copy(result, Imm(1)), Label(endLabel)]
    {
      Emit(Jnz(rv, trueLabel));
      Emit(Copy(result, Imm(0)));
      Emit(Jmp(endLabel));
      Emit(Label(trueLabel));
      Emit(Copy(result, Imm(1)));
      Emit(Label(endLabel));
    }

    method GenCompound(e: Expr) returns (v: Operand)
      requires Valid() && e.CompoundAssign?
      modifies this`instrs, this`nextTemp, this`nextLabel
      ensures (Output(), v) == G.GenExpr(scope, old(Output()), e) && Valid()
      decreases e, 0
    {
      var addr := GenLvalue(e.name);
      var lval := GenLoad(addr);
      var rv := GenExpr(e.right);
      var t := NewTemp();
      Emit(Bin(e.op, t, lval, rv, false));
      GenStore(addr, Temp(t));
      v := Temp(t);
    }

    method GenTernary(e: Expr) returns (v: Operand)
      requires Valid() && e.Ternary?
      modifies this`instrs, this`nextTemp, this`nextLabel
      ensures (Output(), v) == G.GenExpr(scope, old(Output()), e) && Valid()
      decreases e, 0
    {
      hide G.Extends, G.GenExpr, G.ScopeBelow;
      G.TernaryIs(scope, Output(), e);
      var thenLabel := NewLabel();
      var elseLabel := NewLabel();
      var endLabel := NewLabel();
      var result := NewTemp();
      assert Output() == G.NewTemp(G.NewLabels(old(Output()), 3));
      var cond := GenExpr(e.cond);
      Emit(Jz(cond, elseLabel));
      Emit(Label(thenLabel));
      ghost var test := Output();
      var tv := GenExpr(e.thn);
      Emit(Copy(result, tv));
      Emit(Jmp(endLabel));
      Emit(Label(elseLabel));
      assert Output() == G.TernaryThen(scope, test, e.thn, result, endLabel, elseLabel);
      var ev := GenExpr(e.els);
      Emit(Copy(result, ev));
      Emit(Label(endLabel));
      v := Temp(result);
    }

    /** A test of a loop or `if`; an absent one emits nothing. */
    method GenTest(test: Option<Expr>, exit: nat)
      requires Valid()
      modifies this`instrs, this`nextTemp, this`nextLabel
      ensures Output() == G.GenTest(scope, old(Output()), test, exit) && Valid()
    {
      if test.Some? {
        var cond := GenExpr(test.value);
        Emit(Jz(cond, exit));
      }
    }

    // ----- pre-scans -----

    method CollectSwitchCases(s: Stmt)
      modifies this`nextLabel, this`caseEntries, this`swDefaultLabel
      ensures G.Collected(nextLabel, caseEntries, swDefaultLabel)
           == G.CollectCases(s, G.Collected(old(nextLabel), old(caseEntries), old(swDefaultLabel)))
      decreases s
    {
      match s
      case Case(id, e, b) =>
        var l := NewLabel();
        caseEntries := [G.CaseEntry(id, G.EvalConst(e), false, l)] + caseEntries;
        CollectSwitchCases(b);
      case Default(id, b) =>
        var l := NewLabel();
        swDefaultLabel := l;
        caseEntries := [G.CaseEntry(id, 0, true, l)] + caseEntries;
        CollectSwitchCases(b);
      case Then(a, b) =>
        CollectSwitchCases(a);
        CollectSwitchCases(b);
      case Compound(b) => CollectSwitchCases(b);
      case If(_, a, b) =>
        CollectSwitchCases(a);
        if b.Some? {
          CollectSwitchCases(b.value);
        }
      case While(_, b) => CollectSwitchCases(b);
      case DoWhile(b, _) => CollectSwitchCases(b);
      case For(_, _, _, b) => CollectSwitchCases(b);
      case Labelled(_, b) => CollectSwitchCases(b);
      case _ =>
    }

    method CollectLabels(s: Stmt)
      modifies this`nextLabel, this`gotoLabels
      ensures (nextLabel, gotoLabels) == G.CollectLabels(s, old(nextLabel), old(gotoLabels))
      decreases s
    {
      match s
      case Labelled(x, b) =>
        var l := NewLabel();
        gotoLabels := [(x, l)] + gotoLabels;
        CollectLabels(b);
      case Then(a, b) =>
        CollectLabels(a);
        CollectLabels(b);
      case Compound(b) => CollectLabels(b);
      case If(_, a, b) =>
        CollectLabels(a);
        if b.Some? {
          CollectLabels(b.value);
        }
      case While(_, b) => CollectLabels(b);
      case DoWhile(b, _) => CollectLabels(b);
      case For(_, _, _, b) => CollectLabels(b);
      case Switch(_, b) => CollectLabels(b);
      case Case(_, _, b) => CollectLabels(b);
      case Default(_, b) => CollectLabels(b);
      case _ =>
    }

    // ----- statements -----

    method GenStmt(s: Stmt)
      requires Valid()
      modifies this
      ensures (Output(), scope) == G.GenStmt(Context(), old(scope), old(Output()), s) && Valid()
      ensures Context() == old(Context())
      decreases s, 2
    {
      hide G.Extends, G.GenExpr, G.GenDecl, G.GenIf, G.GenWhile, G.GenDoWhile, G.GenFor, G.GenSwitch, G.FindCase;
      match s
      case End =>
      case Then(a, b) =>
        GenStmt(a);
        GenStmt(b);
      case Compound(b) =>
        var saved := scope;
        GenStmt(b);
        scope := saved;
      case ExprStmt(e) => var ignored := GenExpr(e);
      case Decl(_, _, _) => GenDecl(s);
      case If(_, _, _) => GenIf(s);
      case While(_, _) => GenWhile(s);
      case DoWhile(_, _) => GenDoWhile(s);
      case For(_, _, _, _) => GenFor(s);
      case Return(e) =>
        if e.Some? {
          var rv := GenExpr(e.value);
          Emit(Ret(Some(rv)));
        } else {
          Emit(Ret(None));
        }
      case Break => if breakLabel != 0 { Emit(Jmp(breakLabel)); }
      case Continue => if contLabel != 0 { Emit(Jmp(contLabel)); }
      case Switch(_, _) => GenSwitch(s);
      case Case(id, _, b) =>
        EmitCaseLabel(id, false);
        GenStmt(b);
      case Default(id, b) =>
        EmitCaseLabel(id, true);
        GenStmt(b);
      case Goto(x) =>
        var l := Lookup(gotoLabels, x);
        if l.Some? { Emit(Jmp(l.value)); }
      case Labelled(x, b) =>
        var l := Lookup(gotoLabels, x);
        if l.Some? { Emit(Label(l.value)); }
        GenStmt(b);
    }

    /** The loop over the case entries that looks for the node by identity. */
    method EmitCaseLabel(id: nat, isDefault: bool)
      modifies this`instrs
      ensures Output() == G.EmitOptLabel(old(Output()), G.FindCase(caseEntries, id, isDefault))
    {
      var k := 0;
      while k < |caseEntries| && !(caseEntries[k].id == id && caseEntries[k].isDefault == isDefault)
        invariant 0 <= k <= |caseEntries|
        invariant G.FindCase(caseEntries, id, isDefault) == G.FindCase(caseEntries[k..], id, isDefault)
      {
        assert caseEntries[k..][1..] == caseEntries[k + 1..];
        k := k + 1;
      }
      if k < |caseEntries| {
        Emit(Label(caseEntries[k].target));
      }
    }

    method GenDecl(s: Stmt)
      requires Valid() && s.Decl?
      modifies this
      ensures (Output(), scope) == G.GenDecl(old(scope), old(Output()), s) && Valid()
      ensures Context() == old(Context())
    {
      var addr := GenAlloca(s.id);
      scope := [(s.name, addr.id)] + scope;
      if s.init.Some? {
        var v := GenExpr(s.init.value);
        GenStore(addr, v);
      }
    }

    method GenIf(s: Stmt)
      requires Valid() && s.If?
      modifies this
      ensures (Output(), scope) == G.GenIf(Context(), old(scope), old(Output()), s) && Valid()
      ensures Context() == old(Context())
      decreases s, 0
    {
      hide G.Extends;
      var elseLabel := NewLabel();
      var endLabel := NewLabel();
      assert Output() == G.NewLabels(old(Output()), 2);
      GenTest(Some(s.cond), elseLabel);
      GenStmt(s.thn);
      if s.els.Some? { Emit(Jmp(endLabel)); }
      Emit(Label(elseLabel));
      if s.els.Some? {
        GenStmt(s.els.value);
        Emit(Label(endLabel));
      }
    }

    method GenWhile(s: Stmt)
      requires Valid() && s.While?
      modifies this
      ensures (Output(), scope) == G.GenWhile(Context(), old(scope), old(Output()), s) && Valid()
      ensures Context() == old(Context())
      decreases s, 0
    {
      hide G.Extends, G.ScopeBelow, G.GenExpr, G.GenStmt, G.GenTest;
      var topLabel := NewLabel();
      var bodyLabel := NewLabel();
      var endLabel := NewLabel();
      assert Output() == G.NewLabels(old(Output()), 3);
      var savedBreak, savedCont := breakLabel, contLabel;
      breakLabel, contLabel := endLabel, topLabel;
      Emit(Label(topLabel));
      GenTest(Some(s.cond), endLabel);
      Emit(Label(bodyLabel));
      assert Output() == G.WhileStart(scope, old(Output()), s);
      GenStmt(s.body);
      assert (Output(), scope) == G.WhileBody(old(Context()), old(scope), old(Output()), s);
      Emit(Jmp(topLabel));
      Emit(Label(endLabel));
      breakLabel, contLabel := savedBreak, savedCont;
    }

    method GenDoWhile(s: Stmt)
      requires Valid() && s.DoWhile?
      modifies this
      ensures (Output(), scope) == G.GenDoWhile(Context(), old(scope), old(Output()), s) && Valid()
      ensures Context() == old(Context())
      decreases s, 0
    {
      hide G.Extends, G.ScopeBelow, G.GenExpr, G.GenStmt, G.GenTest;
      var bodyLabel := NewLabel();
      var condLabel := NewLabel();
      var endLabel := NewLabel();
      assert Output() == G.NewLabels(old(Output()), 3);
      var savedBreak, savedCont := breakLabel, contLabel;
      breakLabel, contLabel := endLabel, condLabel;
      Emit(Label(bodyLabel));
      GenStmt(s.body);
      Emit(Label(condLabel));
      var cond := GenExpr(s.cond);
      Emit(Jnz(cond, bodyLabel));
      Emit(Label(endLabel));
      breakLabel, contLabel := savedBreak, savedCont;
    }

    method GenFor(s: Stmt)
      requires Valid() && s.For?
      modifies this
      ensures (Output(), scope) == G.GenFor(Context(), old(scope), old(Output()), s) && Valid()
      ensures Context() == old(Context())
      decreases s, 1
    {
      hide G.Extends;
      var topLabel := NewLabel();
      var bodyLabel := NewLabel();
      var incrLabel := NewLabel();
      var endLabel := NewLabel();
      assert Output() == G.NewLabels(old(Output()), 4);
      var savedBreak, savedCont := breakLabel, contLabel;
      breakLabel, contLabel := endLabel, incrLabel;
      var savedScope := scope;
      GenStmt(s.start);
      GenForLoop(s, topLabel, bodyLabel, incrLabel, endLabel);
      scope := savedScope;
      breakLabel, contLabel := savedBreak, savedCont;
    }

    /** The repeated part of a `for`. */
    method GenForLoop(s: Stmt, topLabel: nat, bodyLabel: nat, incrLabel: nat, endLabel: nat)
      requires Valid() && s.For?
      requires bodyLabel == topLabel + 1 && incrLabel == topLabel + 2 && endLabel == topLabel + 3
      modifies this
      ensures Output() == G.GenForLoop(Context(), old(scope), old(Output()), s, topLabel)
      ensures scope == G.ForBody(Context(), old(scope), old(Output()), s, topLabel).1 && Valid()
      ensures Context() == old(Context())
      decreases s, 0
    {
      hide G.Extends;
      Emit(Label(topLabel));
      GenTest(s.test, endLabel);
      Emit(Label(bodyLabel));
      assert Output() == G.ForStart(scope, old(Output()), s, topLabel);
      GenStmt(s.body);
      assert (Output(), scope) == G.ForBody(Context(), old(scope), old(Output()), s, topLabel);
      Emit(Label(incrLabel));
      if s.incr.Some? {
        var ignored := GenExpr(s.incr.value);
      }
      assert Output() == G.ForIncr(Context(), old(scope), old(Output()), s, topLabel);
      Emit(Jmp(topLabel));
      Emit(Label(endLabel));
    }

    method GenSwitch(s: Stmt)
      requires Valid() && s.Switch?
      modifies this
      ensures (Output(), scope) == G.GenSwitch(Context(), old(scope), old(Output()), s) && Valid()
      ensures Context() == old(Context())
      decreases s, 0
    {
      hide G.Extends, G.GenStmt, G.GenDispatch, G.CollectCases;
      var endLabel := NewLabel();
      var savedBreak := breakLabel;
      breakLabel := endLabel;
      var savedCases, savedDefault := caseEntries, swDefaultLabel;
      caseEntries, swDefaultLabel := [], 0;
      CollectSwitchCases(s.body);
      GenDispatch(s.e, endLabel);
      assert Output() == G.SwitchStart(scope, old(Output()), s);
      GenStmt(s.body);
      Emit(Label(endLabel));
      caseEntries, swDefaultLabel, breakLabel := savedCases, savedDefault, savedBreak;
    }

    /** A switch up to its body. */
    method GenDispatch(e: Expr, endLabel: nat)
      requires Valid()
      modifies this`instrs, this`nextTemp, this`nextLabel
      ensures Output() == G.GenDispatch(scope, old(Output()), e,
                                        G.Collected(old(nextLabel), caseEntries, swDefaultLabel), endLabel)
      ensures Valid()
    {
      hide G.Extends;
      var sv := GenExpr(e);
      var t := NewTemp();
      Emit(Copy(t, sv));
      GenTests(t);
      Emit(Jmp(if swDefaultLabel != 0 then swDefaultLabel else endLabel));
    }

    /** The comparison chain: for each non-default entry, test and jump. */
    method GenTests(sv: nat)
      requires Valid()
      modifies this`instrs, this`nextTemp
      ensures Output() == G.EmitTests(old(Output()), sv, caseEntries) && Valid()
    {
      var k := 0;
      while k < |caseEntries|
        invariant 0 <= k <= |caseEntries| && Valid()
        invariant vars == old(vars) && nextLabel == old(nextLabel)
        invariant G.EmitTests(old(Output()), sv, caseEntries) == G.EmitTests(Output(), sv, caseEntries[k..])
      {
        assert caseEntries[k..][1..] == caseEntries[k + 1..];
        if !caseEntries[k].isDefault {
          var t := NewTemp();
          Emit(Bin(Eq, t, Temp(sv), Imm(caseEntries[k].val), false));
          Emit(Jnz(Temp(t), caseEntries[k].target));
        }
        k := k + 1;
      }
    }

    /** A function without parameters, from a new generator. */
    method GenFunc(body: Stmt)
      requires Output() == G.Out([], 1, 1, []) && scope == []
      modifies this
      ensures Output() == G.GenFunc(body)
    {
      hide G.Extends, G.GenStmt, G.CollectLabels;
      breakLabel, contLabel := 0, 0;
      caseEntries, swDefaultLabel := [], 0;
      gotoLabels := [];
      CollectLabels(body);
      var saved := scope;
      GenStmt(body);
      scope := saved;
    }
  }
}
