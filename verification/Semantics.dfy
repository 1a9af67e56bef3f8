/**
 The meaning of the subset, independent of the compiler. Expressions are evaluated left to right
 over a store of `int` objects, one per declaration; `None` is a step C99 leaves undefined
 (overflow, division by zero, a shift out of range, a read of an object that holds no value).
 Statements run in one of two modes: `Run`, or `Seek(t)`, which enters the statement at the
 `case`, `default` or named label `t`. `fuel` bounds loop iterations and backward jumps only.
 */
module Semantics {
  import opened Wrappers
  import opened Bits
  import opened Ast
  import Ir

  /** Objects whose declaration has been reached; an inner `None` is an indeterminate value. */
  type Store = map<nat, Option<int>>

  predicate StoreOk(st: Store) {
    forall id :: id in st && st[id].Some? ==> Int32(st[id].value)
  }

  function Checked(v: int): Option<int> {
    if Int32(v) then Some(v) else None
  }

  /** The C99 value of `a op b` on `int`, when it is defined. */
  function EvalBin(op: Ir.BinOp, a: int, b: int): Option<int> {
    match op
    case Add => Checked(a + b)
    case Sub => Checked(a - b)
    case Mul => Checked(a * b)
    case Div => if b == 0 then None else Checked(TruncDiv(a, b))
    case Mod => if b == 0 || !Int32(TruncDiv(a, b)) then None else Checked(TruncMod(a, b))
    case And => Checked(Bitwise(BitAnd, 31, a, b))
    case Or => Checked(Bitwise(BitOr, 31, a, b))
    case Xor => Checked(Bitwise(BitXor, 31, a, b))
    case Shl => if 0 <= b < 32 && a >= 0 then Checked(a * Pow2(b)) else None
    case Shr => if 0 <= b < 32 then Checked(a / Pow2(b)) else None
    case Eq => Some(Bool(a == b))
    case Ne => Some(Bool(a != b))
    case Lt => Some(Bool(a < b))
    case Le => Some(Bool(a <= b))
    case Gt => Some(Bool(a > b))
    case Ge => Some(Bool(a >= b))
  }

  /** C99 section 6.5.5: the quotient and the remainder, except by zero and for the one quotient that overflows. */
  lemma DivisionIs(a: int, b: int, q: int, r: int)
    requires Int32(a) && Int32(b)
    ensures b == 0 || (a == -0x8000_0000 && b == -1) ==> EvalBin(Ir.Div, a, b) == None == EvalBin(Ir.Mod, a, b)
    ensures Truncated(a, b, q, r) && !(a == -0x8000_0000 && b == -1) ==>
              EvalBin(Ir.Div, a, b) == Some(q) && EvalBin(Ir.Mod, a, b) == Some(r)
  {
    hide TruncDiv, TruncMod, Bitwise;
    if b != 0 {
      TruncDivides(a, b);
      TruncatedFits(a, b, TruncDiv(a, b), TruncMod(a, b), 0x8000_0000);
    }
    if Truncated(a, b, q, r) {
      TruncatedIs(a, b, q, r);
    }
  }

  function EvalUnary(op: UnaryOp, a: int): Option<int> {
    match op
    case Minus => Checked(-a)
    case Tilde => Checked(-a - 1)
    case Bang => Some(Bool(a == 0))
    case Plus => Some(a)
  }

  function ReadVar(scope: Scope, st: Store, name: string): Option<int> {
    var id := Lookup(scope, name);
    if id.Some? && id.value in st then st[id.value] else None
  }

  /** Assigning needs an object; it may be indeterminate. */
  function WriteVar(scope: Scope, st: Store, name: string, v: int): Option<Store> {
    var id := Lookup(scope, name);
    if id.Some? && id.value in st then Some(st[id.value := Some(v)]) else None
  }

  function StoreResult(scope: Scope, st: Store, name: string, stored: int, v: int): Option<(int, Store)> {
    var w := WriteVar(scope, st, name, stored);
    if w.Some? then Some((v, w.value)) else None
  }

  function StepVar(scope: Scope, st: Store, name: string, inc: bool, post: bool): Option<(int, Store)> {
    var old_ := ReadVar(scope, st, name);
    if old_.None? then None
    else
      var v := EvalBin(if inc then Ir.Add else Ir.Sub, old_.value, 1);
      if v.None? then None
      else StoreResult(scope, st, name, v.value, if post then old_.value else v.value)
  }

  function EvalExpr(e: Expr, scope: Scope, st: Store): Option<(int, Store)> {
    match e
    case IntLit(v) => if Int32(v) then Some((v, st)) else None
    case Ident(x) =>
      var v := ReadVar(scope, st, x);
      if v.Some? then Some((v.value, st)) else None
    case Unary(op, a) =>
      var r := EvalExpr(a, scope, st);
      if r.None? || EvalUnary(op, r.value.0).None? then None
      else Some((EvalUnary(op, r.value.0).value, r.value.1))
    case PreIncDec(inc, x) => StepVar(scope, st, x, inc, false)
    case PostIncDec(inc, x) => StepVar(scope, st, x, inc, true)
    case Binary(op, a, b) =>
      var r := EvalExpr(a, scope, st);
      if r.None? then None
      else
        var q := EvalExpr(b, scope, r.value.1);
        if q.None? || EvalBin(op, r.value.0, q.value.0).None? then None
        else Some((EvalBin(op, r.value.0, q.value.0).value, q.value.1))
    case LogAnd(a, b) =>
      var r := EvalExpr(a, scope, st);
      if r.None? then None
      else if r.value.0 == 0 then Some((0, r.value.1))
      else
        var q := EvalExpr(b, scope, r.value.1);
        if q.None? then None else Some((Bool(q.value.0 != 0), q.value.1))
    case LogOr(a, b) =>
      var r := EvalExpr(a, scope, st);
      if r.None? then None
      else if r.value.0 != 0 then Some((1, r.value.1))
      else
        var q := EvalExpr(b, scope, r.value.1);
        if q.None? then None else Some((Bool(q.value.0 != 0), q.value.1))
    case Assign(x, a) =>
      var r := EvalExpr(a, scope, st);
      if r.None? then None else StoreResult(scope, r.value.1, x, r.value.0, r.value.0)
    case CompoundAssign(op, x, a) =>
      var old_ := ReadVar(scope, st, x);
      if old_.None? then None
      else
        var r := EvalExpr(a, scope, st);
        if r.None? || EvalBin(op, old_.value, r.value.0).None? then None
        else
          var v := EvalBin(op, old_.value, r.value.0).value;
          StoreResult(scope, r.value.1, x, v, v)
    case Ternary(c, a, b) =>
      var r := EvalExpr(c, scope, st);
      if r.None? then None
      else EvalExpr(if r.value.0 != 0 then a else b, scope, r.value.1)
    case Comma(a, b) =>
      var r := EvalExpr(a, scope, st);
      if r.None? then None else EvalExpr(b, scope, r.value.1)
  }

  lemma OperatorInt(scope: Scope, st: Store, op: Ir.BinOp, uop: UnaryOp, a: int, b: int, x: string, inc: bool, post: bool)
    ensures EvalBin(op, a, b).Some? ==> Int32(EvalBin(op, a, b).value)
    ensures Int32(a) && EvalUnary(uop, a).Some? ==> Int32(EvalUnary(uop, a).value)
    ensures StoreOk(st) && ReadVar(scope, st, x).Some? ==> Int32(ReadVar(scope, st, x).value)
    ensures var r := StepVar(scope, st, x, inc, post);
            StoreOk(st) && r.Some? ==> Int32(r.value.0) && StoreOk(r.value.1)
    ensures var r := StoreResult(scope, st, x, a, a);
            Int32(a) && StoreOk(st) && r.Some? ==> Int32(r.value.0) && StoreOk(r.value.1)
  {
  }

  /** Evaluation yields `int` values and keeps every object an `int`. */
  lemma {:induction false} EvalInt(e: Expr, scope: Scope, st: Store)
    requires StoreOk(st)
    ensures var r := EvalExpr(e, scope, st); r.Some? ==> Int32(r.value.0) && StoreOk(r.value.1)
    decreases e
  {
    hide EvalBin, EvalUnary, ReadVar, StepVar, StoreResult, StoreOk;
    if e.IntLit? {
    } else if e.Ident? {
      OperatorInt(scope, st, Ir.Add, Plus, 0, 0, e.name, true, true);
    } else if e.PreIncDec? || e.PostIncDec? {
      OperatorInt(scope, st, Ir.Add, Plus, 0, 0, e.name, e.inc, e.PostIncDec?);
    } else {
      var a := if e.Unary? then e.operand else if e.Ternary? then e.cond
               else if e.Assign? || e.CompoundAssign? then e.right else e.left;
      EvalInt(a, scope, st);
      var r := EvalExpr(a, scope, st);
      if r.Some? {
        var (v, st1) := r.value;
        match e
        case Unary(op, _) => OperatorInt(scope, st1, Ir.Add, op, v, 0, "", true, true);
        case Binary(op, _, b) =>
          EvalInt(b, scope, st1);
          if EvalExpr(b, scope, st1).Some? {
            OperatorInt(scope, st1, op, Plus, v, EvalExpr(b, scope, st1).value.0, "", true, true);
          }
        case LogAnd(_, b) => EvalInt(b, scope, st1);
        case LogOr(_, b) => EvalInt(b, scope, st1);
        case Comma(_, b) => EvalInt(b, scope, st1);
        case Ternary(_, b, c) => EvalInt(b, scope, st1); EvalInt(c, scope, st1);
        case Assign(x, _) => OperatorInt(scope, st1, Ir.Add, Plus, v, 0, x, true, true);
        case CompoundAssign(op, x, _) =>
          var q := ReadVar(scope, st, x);
          if q.Some? {
            OperatorInt(scope, st1, op, Plus, q.value, v, "", true, true);
            if EvalBin(op, q.value, v).Some? {
              OperatorInt(scope, st1, op, Plus, EvalBin(op, q.value, v).value, 0, x, true, true);
            }
          }
        case _ =>
      }
    }
  }

  // ----- statements -----

  datatype Target = CaseT(v: int) | DefaultT | LabelT(name: string)

  datatype Mode = Run | Seek(t: Target)

  datatype Outcome =
    | Normal(st: Store)
    | Broke(st: Store)
    | Continued(st: Store)
    | Jumped(name: string, st: Store)
    | Returned(v: Option<int>, st: Store)
    | Undefined
    | Timeout

  /** The value of a `case` expression, a constant: it mentions no variable. */
  function CaseValue(e: Expr): Option<int> {
    var r := EvalExpr(e, [], map[]);
    if r.Some? then Some(r.value.0) else None
  }

  /** Whether `s` contains the label `t`; the cases of a nested switch are not this switch's. */
  predicate Has(s: Stmt, t: Target) {
    match s
    case Then(a, b) => Has(a, t) || Has(b, t)
    case Compound(b) => Has(b, t)
    case If(_, a, b) => Has(a, t) || (b.Some? && Has(b.value, t))
    case While(_, b) => Has(b, t)
    case DoWhile(b, _) => Has(b, t)
    case For(_, _, _, b) => Has(b, t)
    case Switch(_, b) => t.LabelT? && Has(b, t)
    case Case(_, e, b) => (t.CaseT? && CaseValue(e) == Some(t.v)) || Has(b, t)
    case Default(_, b) => t == DefaultT || Has(b, t)
    case Labelled(x, b) => t == LabelT(x) || Has(b, t)
    case _ => false
  }

  /** Whether the label `t` stands on `s` itself. */
  predicate IsTarget(s: Stmt, t: Target) {
    || (s.Case? && t.CaseT? && CaseValue(s.e) == Some(t.v))
    || (s.Default? && t == DefaultT)
    || (s.Labelled? && t == LabelT(s.name))
  }

  /** Bindings visible after `s`; as in the compiler, only blocks and `for` delimit them. */
  function ScopeAfter(s: Stmt, scope: Scope): Scope {
    match s
    case Then(a, b) => ScopeAfter(b, ScopeAfter(a, scope))
    case Decl(id, x, _) => [(x, id)] + scope
    case If(_, a, b) =>
      if b.Some? then ScopeAfter(b.value, ScopeAfter(a, scope)) else ScopeAfter(a, scope)
    case While(_, b) => ScopeAfter(b, scope)
    case DoWhile(b, _) => ScopeAfter(b, scope)
    case Switch(_, b) => ScopeAfter(b, scope)
    case Case(_, _, b) => ScopeAfter(b, scope)
    case Default(_, b) => ScopeAfter(b, scope)
    case Labelled(_, b) => ScopeAfter(b, scope)
    case _ => scope
  }

  /** Where a switch on value `v` enters its body, if anywhere. */
  function Entry(body: Stmt, v: int): Option<Target> {
    if Has(body, CaseT(v)) then Some(CaseT(v))
    else if Has(body, DefaultT) then Some(DefaultT)
    else None
  }

  /** A loop or switch that was left by `break` has completed. */
  function CatchBreak(r: Outcome): Outcome {
    if r.Broke? then Normal(r.st) else r
  }

  function Exec(fuel: nat, mode: Mode, s: Stmt, scope: Scope, st: Store): Outcome
    requires mode.Seek? ==> Has(s, mode.t)
    decreases fuel, s, 1
  {
    match s
    case End => Normal(st)
    case Then(a, b) =>
      if mode.Seek? && !Has(a, mode.t) then Exec(fuel, mode, b, ScopeAfter(a, scope), st)
      else
        var r := Exec(fuel, mode, a, scope, st);
        if r.Normal? then Exec(fuel, Run, b, ScopeAfter(a, scope), r.st) else r
    case Compound(b) => Exec(fuel, mode, b, scope, st)
    case ExprStmt(e) =>
      var r := EvalExpr(e, scope, st);
      if r.None? then Undefined else Normal(r.value.1)
    case Decl(id, x, init) =>
      if init.None? then Normal(st[id := None])
      else
        var r := EvalExpr(init.value, [(x, id)] + scope, st[id := None]);
        if r.None? then Undefined else Normal(r.value.1[id := Some(r.value.0)])
    case If(c, a, b) =>
      if mode.Seek? then
        if Has(a, mode.t) then Exec(fuel, mode, a, scope, st)
        else Exec(fuel, mode, b.value, ScopeAfter(a, scope), st)
      else
        var r := EvalExpr(c, scope, st);
        if r.None? then Undefined
        else if r.value.0 != 0 then Exec(fuel, Run, a, scope, r.value.1)
        else if b.Some? then Exec(fuel, Run, b.value, ScopeAfter(a, scope), r.value.1)
        else Normal(r.value.1)
    case While(c, b) =>
      var r := if mode.Seek? then Some((1, st)) else EvalExpr(c, scope, st);
      if r.None? then Undefined
      else if r.value.0 == 0 then Normal(r.value.1)
      else
        var q := Exec(fuel, mode, b, scope, r.value.1);
        if q.Normal? || q.Continued? then
          if fuel == 0 then Timeout else Exec(fuel - 1, Run, s, scope, q.st)
        else CatchBreak(q)
    case DoWhile(b, c) =>
      var q := Exec(fuel, mode, b, scope, st);
      if q.Normal? || q.Continued? then
        var r := EvalExpr(c, ScopeAfter(b, scope), q.st);
        if r.None? then Undefined
        else if r.value.0 == 0 then Normal(r.value.1)
        else if fuel == 0 then Timeout else Exec(fuel - 1, Run, s, scope, r.value.1)
      else CatchBreak(q)
    case For(start, _, _, _) =>
      if mode.Seek? then ExecFor(fuel, mode, s, ScopeAfter(start, scope), st)
      else
        var r := Exec(fuel, Run, start, scope, st);
        if r.Normal? then ExecFor(fuel, Run, s, ScopeAfter(start, scope), r.st) else r
    case Return(e) =>
      if e.None? then Returned(None, st)
      else
        var r := EvalExpr(e.value, scope, st);
        if r.None? then Undefined else Returned(Some(r.value.0), r.value.1)
    case Break => Broke(st)
    case Continue => Continued(st)
    case Switch(e, b) =>
      if mode.Seek? then CatchBreak(Exec(fuel, mode, b, scope, st))
      else
        var r := EvalExpr(e, scope, st);
        if r.None? then Undefined
        else
          var t := Entry(b, r.value.0);
          if t.None? then Normal(r.value.1)
          else CatchBreak(Exec(fuel, Seek(t.value), b, scope, r.value.1))
    case Case(_, _, b) => Exec(fuel, if mode.Seek? && IsTarget(s, mode.t) then Run else mode, b, scope, st)
    case Default(_, b) => Exec(fuel, if mode.Seek? && IsTarget(s, mode.t) then Run else mode, b, scope, st)
    case Goto(x) => Jumped(x, st)
    case Labelled(_, b) => Exec(fuel, if mode.Seek? && IsTarget(s, mode.t) then Run else mode, b, scope, st)
  }

  /** A `for` loop after its first clause: from the test in mode `Run`, inside the body otherwise. */
  function ExecFor(fuel: nat, mode: Mode, s: Stmt, scope: Scope, st: Store): Outcome
    requires s.For?
    requires mode.Seek? ==> Has(s.body, mode.t)
    decreases fuel, s, 0
  {
    var r := if mode.Seek? || s.test.None? then Some((1, st)) else EvalExpr(s.test.value, scope, st);
    if r.None? then Undefined
    else if r.value.0 == 0 then Normal(r.value.1)
    else
      var q := Exec(fuel, mode, s.body, scope, r.value.1);
      if q.Normal? || q.Continued? then
        var i := if s.incr.None? then Some((0, q.st))
                 else EvalExpr(s.incr.value, ScopeAfter(s.body, scope), q.st);
        if i.None? then Undefined
        else if fuel == 0 then Timeout
        else ExecFor(fuel - 1, Run, s, scope, i.value.1)
      else CatchBreak(q)
  }

  datatype Behaviour = Finishes(ret: Option<int>, st: Store) | GoesWrong | RunsOn

  /** A whole function body. A `goto` re-enters the body at its label with the store kept. */
  function ExecBody(fuel: nat, mode: Mode, body: Stmt, st: Store): Behaviour
    requires mode.Seek? ==> Has(body, mode.t)
    decreases fuel
  {
    match Exec(fuel, mode, body, [], st)
    case Normal(st1) => Finishes(None, st1)
    case Returned(v, st1) => Finishes(v, st1)
    case Jumped(x, st1) =>
      if !Has(body, LabelT(x)) then GoesWrong
      else if fuel == 0 then RunsOn
      else ExecBody(fuel - 1, Seek(LabelT(x)), body, st1)
    case Timeout => RunsOn
    case _ => GoesWrong
  }

  predicate OutcomeOk(r: Outcome) {
    match r
    case Normal(st) => StoreOk(st)
    case Broke(st) => StoreOk(st)
    case Continued(st) => StoreOk(st)
    case Jumped(_, st) => StoreOk(st)
    case Returned(v, st) => (v.Some? ==> Int32(v.value)) && StoreOk(st)
    case _ => true
  }

  /** Statements keep every object an `int`, and functions return `int` values. */
  lemma {:induction false} ExecInt(fuel: nat, mode: Mode, s: Stmt, scope: Scope, st: Store)
    requires mode.Seek? ==> Has(s, mode.t)
    requires StoreOk(st)
    ensures OutcomeOk(Exec(fuel, mode, s, scope, st))
    decreases fuel, s, 1
  {
    hide StoreOk;
    match s
    case Then(a, b) =>
      if mode.Seek? && !Has(a, mode.t) {
        ExecInt(fuel, mode, b, ScopeAfter(a, scope), st);
      } else {
        ExecInt(fuel, mode, a, scope, st);
        var r := Exec(fuel, mode, a, scope, st);
        if r.Normal? { ExecInt(fuel, Run, b, ScopeAfter(a, scope), r.st); }
      }
    case Compound(b) => ExecInt(fuel, mode, b, scope, st);
    case ExprStmt(e) => EvalInt(e, scope, st);
    case Decl(id, x, init) =>
      SetKeepsOk(st, id, None);
      if init.Some? {
        EvalInt(init.value, [(x, id)] + scope, st[id := None]);
        var r := EvalExpr(init.value, [(x, id)] + scope, st[id := None]);
        if r.Some? { SetKeepsOk(r.value.1, id, Some(r.value.0)); }
      }
    case If(c, a, b) =>
      if mode.Seek? {
        if Has(a, mode.t) { ExecInt(fuel, mode, a, scope, st); }
        else { ExecInt(fuel, mode, b.value, ScopeAfter(a, scope), st); }
      } else {
        EvalInt(c, scope, st);
        var r := EvalExpr(c, scope, st);
        if r.Some? {
          if r.value.0 != 0 { ExecInt(fuel, Run, a, scope, r.value.1); }
          else if b.Some? { ExecInt(fuel, Run, b.value, ScopeAfter(a, scope), r.value.1); }
        }
      }
    case While(_, _) => WhileInt(fuel, mode, s, scope, st);
    case DoWhile(_, _) => DoInt(fuel, mode, s, scope, st);
    case For(start, _, _, _) =>
      if mode.Seek? { ForInt(fuel, mode, s, ScopeAfter(start, scope), st); }
      else {
        ExecInt(fuel, Run, start, scope, st);
        var r := Exec(fuel, Run, start, scope, st);
        if r.Normal? { ForInt(fuel, Run, s, ScopeAfter(start, scope), r.st); }
      }
    case Return(e) => if e.Some? { EvalInt(e.value, scope, st); }
    case Switch(e, b) =>
      if mode.Seek? { ExecInt(fuel, mode, b, scope, st); }
      else {
        EvalInt(e, scope, st);
        var r := EvalExpr(e, scope, st);
        if r.Some? {
          var t := Entry(b, r.value.0);
          if t.Some? { ExecInt(fuel, Seek(t.value), b, scope, r.value.1); }
        }
      }
    case Case(_, _, b) => ExecInt(fuel, if mode.Seek? && IsTarget(s, mode.t) then Run else mode, b, scope, st);
    case Default(_, b) => ExecInt(fuel, if mode.Seek? && IsTarget(s, mode.t) then Run else mode, b, scope, st);
    case Labelled(_, b) => ExecInt(fuel, if mode.Seek? && IsTarget(s, mode.t) then Run else mode, b, scope, st);
    case _ =>
  }

  lemma SetKeepsOk(st: Store, id: nat, v: Option<int>)
    requires StoreOk(st) && (v.Some? ==> Int32(v.value))
    ensures StoreOk(st[id := v])
  {
  }

  lemma {:induction false} WhileInt(fuel: nat, mode: Mode, s: Stmt, scope: Scope, st: Store)
    requires s.While? && (mode.Seek? ==> Has(s, mode.t)) && StoreOk(st)
    ensures OutcomeOk(Exec(fuel, mode, s, scope, st))
    decreases fuel, s, 0
  {
    hide StoreOk;
    var r := if mode.Seek? then Some((1, st)) else EvalExpr(s.cond, scope, st);
    if mode.Run? { EvalInt(s.cond, scope, st); }
    if r.Some? && r.value.0 != 0 {
      ExecInt(fuel, mode, s.body, scope, r.value.1);
      var q := Exec(fuel, mode, s.body, scope, r.value.1);
      if (q.Normal? || q.Continued?) && fuel > 0 { ExecInt(fuel - 1, Run, s, scope, q.st); }
    }
  }

  lemma {:induction false} DoInt(fuel: nat, mode: Mode, s: Stmt, scope: Scope, st: Store)
    requires s.DoWhile? && (mode.Seek? ==> Has(s, mode.t)) && StoreOk(st)
    ensures OutcomeOk(Exec(fuel, mode, s, scope, st))
    decreases fuel, s, 0
  {
    hide StoreOk;
    ExecInt(fuel, mode, s.body, scope, st);
    var q := Exec(fuel, mode, s.body, scope, st);
    if q.Normal? || q.Continued? {
      EvalInt(s.cond, ScopeAfter(s.body, scope), q.st);
      var r := EvalExpr(s.cond, ScopeAfter(s.body, scope), q.st);
      if r.Some? && fuel > 0 { ExecInt(fuel - 1, Run, s, scope, r.value.1); }
    }
  }

  lemma {:induction false} ForInt(fuel: nat, mode: Mode, s: Stmt, scope: Scope, st: Store)
    requires s.For? && (mode.Seek? ==> Has(s.body, mode.t)) && StoreOk(st)
    ensures OutcomeOk(ExecFor(fuel, mode, s, scope, st))
    decreases fuel, s, 0
  {
    hide StoreOk;
    var r := if mode.Seek? || s.test.None? then Some((1, st)) else EvalExpr(s.test.value, scope, st);
    if mode.Run? && s.test.Some? { EvalInt(s.test.value, scope, st); }
    if r.Some? && r.value.0 != 0 {
      ExecInt(fuel, mode, s.body, scope, r.value.1);
      var q := Exec(fuel, mode, s.body, scope, r.value.1);
      if q.Normal? || q.Continued? {
        if s.incr.Some? { EvalInt(s.incr.value, ScopeAfter(s.body, scope), q.st); }
        var i := if s.incr.None? then Some((0, q.st))
                 else EvalExpr(s.incr.value, ScopeAfter(s.body, scope), q.st);
        if i.Some? && fuel > 0 { ForInt(fuel - 1, Run, s, scope, i.value.1); }
      }
    }
  }

  lemma {:induction false} BodyInt(fuel: nat, mode: Mode, body: Stmt, st: Store)
    requires mode.Seek? ==> Has(body, mode.t)
    requires StoreOk(st)
    ensures match ExecBody(fuel, mode, body, st)
            case Finishes(v, st1) => (v.Some? ==> Int32(v.value)) && StoreOk(st1)
            case _ => true
    decreases fuel
  {
    ExecInt(fuel, mode, body, [], st);
    var r := Exec(fuel, mode, body, [], st);
    if r.Jumped? && Has(body, LabelT(r.name)) && fuel > 0 {
      BodyInt(fuel - 1, Seek(LabelT(r.name)), body, r.st);
    }
  }
}
