/** Lowered expressions compute what the source expression means. */
module LowerExpr {
  import opened Wrappers
  import opened Bits
  import opened Ast
  import opened Ir
  import opened IrGen
  import opened Semantics
  import opened Simulation

  // ----- arithmetic -----

  lemma BitsAgree(op: Bitop, a: int, b: int)
    requires Int32(a) && Int32(b)
    ensures Bitwise(op, 63, a, b) == Bitwise(op, 31, a, b)
    ensures Int32(Bitwise(op, 31, a, b))
  {
    Pow2Is31();
    BitwiseWiden(op, 31, 32, a, b);
  }

  lemma Pow2Is31()
    ensures Pow2(31) == 0x8000_0000
  {
    assert Pow2(8) == 256;
    assert Pow2(16) == 0x1_0000;
    assert Pow2(24) == 0x100_0000;
  }

  lemma MulSmall(p: int, q: int)
    requires p >= 1
    ensures q >= 0 ==> p * q >= q
    ensures q <= 0 ==> p * q <= q
  {
  }

  lemma ShiftInRange(a: int, b: nat)
    requires Int32(a)
    ensures Int32(a / Pow2(b))
  {
    DivideInRange(a, Pow2(b));
  }

  lemma DivideInRange(a: int, p: int)
    requires Int32(a) && p >= 1
    ensures Int32(a / p)
  {
    var q, r := a / p, a % p;
    assert a == p * q + r && 0 <= r < p;
    MulSmall(p, q);
    MulSmall(p, q + 1);
    assert p * (q + 1) == p * q + p;
  }

  /** Where C defines `a op b` on `int`, the 64-bit operation on sign-extended slots gives the same value. */
  lemma BinAgrees(op: BinOp, a: int, b: int)
    requires Int32(a) && Int32(b) && EvalBin(op, a, b).Some?
    ensures BinVal(op, false, a, b) == EvalBin(op, a, b)
    ensures Int32(EvalBin(op, a, b).value)
    ensures op == Div ==> exists r :: Truncated(a, b, BinVal(op, false, a, b).value, r)
    ensures op == Mod ==> exists q :: Truncated(a, b, q, BinVal(op, false, a, b).value)
  {
    hide Bitwise, Pow2, TruncDiv, TruncMod, Truncated;
    match op
    case Div => DivisionAgrees(op, a, b);
    case Mod => DivisionAgrees(op, a, b);
    case And => BitsAgree(BitAnd, a, b);
    case Or => BitsAgree(BitOr, a, b);
    case Xor => BitsAgree(BitXor, a, b);
    case Shl => assert b % 64 == b;
    case Shr => assert b % 64 == b; ShiftInRange(a, b);
    case _ =>
  }

  lemma DivisionAgrees(op: BinOp, a: int, b: int)
    requires Int32(a) && Int32(b) && EvalBin(op, a, b).Some? && (op == Div || op == Mod)
    ensures BinVal(op, false, a, b) == EvalBin(op, a, b) && Int32(EvalBin(op, a, b).value)
    ensures op == Div ==> exists r :: Truncated(a, b, BinVal(op, false, a, b).value, r)
    ensures op == Mod ==> exists q :: Truncated(a, b, q, BinVal(op, false, a, b).value)
  {
    hide TruncDiv, TruncMod, Truncated, BinVal, Bitwise;
    DivisionIs(a, b, 0, 0);
    var q, r := TruncDiv(a, b), TruncMod(a, b);
    TruncDivides(a, b);
    DivisionIs(a, b, q, r);
    DivideValues(false, a, b, q, r);
  }

  // ----- single instructions -----

  /** The generator state after one more instruction that allocates no declaration. */
  predicate Next(P: Prog, o: Out, o1: Out) {
    Extends(o, o1) && o1.vars == o.vars && Placed(P, o1) && |o1.code| == |o.code| + 1
  }

  lemma SetStep(P: Prog, gs: Scope, o: Out, o1: Out, ss: Scope, st: Store, m: State, t: nat, v: int)
    returns (m1: State)
    requires At(P, gs, o, ss, st, m) && Next(P, o, o1)
    requires Step(P.code, P.base, m) == Set(m, t, v)
    requires !IsVarTemp(P, t)
    ensures m1 == State(m.pc + 1, m.temps[t := v], m.mem)
    ensures Steps(P.code, P.base, m, 1) == Status.Run(m1)
    ensures At(P, gs, o1, ss, st, m1)
  {
    m1 := State(m.pc + 1, m.temps[t := v], m.mem);
    OneStep(P, m, m1);
    SetKeepsStore(P, st, m, t, v, m.pc + 1);
  }

  /** A step that only moves to the position where generator state `o1` ends. */
  lemma MoveStep(P: Prog, gs: Scope, o: Out, o1: Out, ss: Scope, st: Store, m: State)
    returns (m1: State)
    requires At(P, gs, o, ss, st, m)
    requires Placed(P, o1) && WellFormed(o1) && o.nt <= o1.nt
    requires Step(P.code, P.base, m) == Status.Run(m.(pc := |o1.code|))
    ensures m1 == m.(pc := |o1.code|)
    ensures Steps(P.code, P.base, m, 1) == Status.Run(m1)
    ensures At(P, gs, o1, ss, st, m1)
  {
    m1 := m.(pc := |o1.code|);
    OneStep(P, m, m1);
    MoveKeepsStore(P, st, m, |o1.code|);
  }

  /** `o` followed by the first `i` instructions of `fin`. */
  function Pt(o: Out, fin: seq<Instr>, i: nat): Out
    requires i <= |fin|
  {
    o.(code := o.code + fin[..i])
  }

  lemma PointAt(P: Prog, o: Out, fin: seq<Instr>, i: nat)
    requires Placed(P, o.(code := o.code + fin)) && WellFormed(o) && i <= |fin|
    ensures Placed(P, Pt(o, fin, i)) && WellFormed(Pt(o, fin, i)) && |Pt(o, fin, i).code| == |o.code| + i
    ensures i < |fin| ==> |o.code| + i < |P.code| && P.code[|o.code| + i] == fin[i]
  {
    assert o.code + fin[..i] <= o.code + fin;
    if i < |fin| {
      assert (o.code + fin)[|o.code| + i] == fin[i];
    }
  }

  /** Copy the constant or temporary `v` to `res`, at position `i` of `fin`. */
  lemma CopyStep(P: Prog, gs: Scope, o: Out, fin: seq<Instr>, i: nat, ss: Scope, st: Store, m: State,
                 res: nat, v: Operand, c: int)
    returns (m1: State)
    requires Placed(P, o.(code := o.code + fin)) && WellFormed(o)
    requires i < |fin| && fin[i] == Copy(res, v) && !IsVarTemp(P, res) && Value(m, v) == Some(c)
    requires At(P, gs, Pt(o, fin, i), ss, st, m)
    ensures m1 == State(m.pc + 1, m.temps[res := c], m.mem)
    ensures Steps(P.code, P.base, m, 1) == Status.Run(m1)
    ensures At(P, gs, Pt(o, fin, i + 1), ss, st, m1)
  {
    PointAt(P, o, fin, i);
    PointAt(P, o, fin, i + 1);
    assert Pt(o, fin, i + 1).code == Pt(o, fin, i).code + [fin[i]];
    m1 := SetStep(P, gs, Pt(o, fin, i), Pt(o, fin, i + 1), ss, st, m, res, c);
  }

  /** Move from position `i` of `fin` to position `j`, falling through a label or jumping to it. */
  lemma HopStep(P: Prog, gs: Scope, o: Out, fin: seq<Instr>, i: nat, j: nat, ss: Scope, st: Store, m: State)
    returns (m1: State)
    requires Placed(P, o.(code := o.code + fin)) && WellFormed(o)
    requires i < |fin| && j <= |fin|
    requires At(P, gs, Pt(o, fin, i), ss, st, m)
    requires || (fin[i].Label? && j == i + 1)
             || (fin[i].Jmp? && j < |fin| && fin[j] == Label(fin[i].l))
    ensures m1 == m.(pc := |o.code| + j)
    ensures Steps(P.code, P.base, m, 1) == Status.Run(m1)
    ensures At(P, gs, Pt(o, fin, j), ss, st, m1)
  {
    PointAt(P, o, fin, i);
    PointAt(P, o, fin, j);
    if fin[i].Jmp? {
      FindUnique(P.code, fin[i].l, |o.code| + j);
    }
    m1 := MoveStep(P, gs, Pt(o, fin, i), Pt(o, fin, j), ss, st, m);
  }

  /** A jump to the label with which `to` continues. */
  lemma JumpStep(P: Prog, gs: Scope, o: Out, to: Out, ss: Scope, st: Store, m: State)
    returns (m1: State)
    requires At(P, gs, o, ss, st, m) && Placed(P, to) && WellFormed(to) && o.nt <= to.nt
    requires |o.code| < |P.code| && P.code[|o.code|].Jmp?
    requires |to.code| < |P.code| && P.code[|to.code|] == Label(P.code[|o.code|].l)
    ensures m1 == m.(pc := |to.code|)
    ensures Steps(P.code, P.base, m, 1) == Status.Run(m1)
    ensures At(P, gs, to, ss, st, m1)
  {
    FindUnique(P.code, P.code[|o.code|].l, |to.code|);
    m1 := MoveStep(P, gs, o, to, ss, st, m);
  }

  /** A conditional jump: `to` is where the machine goes, the label's position when the jump is taken. */
  lemma CondStep(P: Prog, gs: Scope, o: Out, to: Out, ss: Scope, st: Store, m: State, v: Operand, x: int,
                 i: Instr, taken: bool)
    returns (m1: State)
    requires At(P, gs, o, ss, st, m) && Placed(P, to) && WellFormed(to) && o.nt <= to.nt
    requires |o.code| < |P.code| && P.code[|o.code|] == i && Value(m, v) == Some(x)
    requires (i.Jz? && i.cond == v && taken == (x == 0)) || (i.Jnz? && i.cond == v && taken == (x != 0))
    requires if taken then |to.code| < |P.code| && P.code[|to.code|] == Label(i.l)
             else |to.code| == |o.code| + 1
    ensures m1 == m.(pc := |to.code|)
    ensures Steps(P.code, P.base, m, 1) == Status.Run(m1)
    ensures At(P, gs, to, ss, st, m1)
  {
    if taken {
      FindUnique(P.code, i.l, |to.code|);
    }
    m1 := MoveStep(P, gs, o, to, ss, st, m);
  }

  /** The store of an `int` to a variable. */
  lemma StoreStep(P: Prog, gs: Scope, o: Out, o1: Out, ss: Scope, st: Store, m: State,
                  x: string, v: Operand, val: int)
    returns (m1: State)
    requires At(P, gs, o, ss, st, m) && Next(P, o, o1)
    requires o1.code == o.code + [Store(Address(gs, x), v, 4)]
    requires WriteVar(ss, st, x, val).Some? && Value(m, v) == Some(val) && Int32(val)
    ensures Steps(P.code, P.base, m, 1) == Status.Run(m1)
    ensures At(P, gs, o1, ss, WriteVar(ss, st, x, val).value, m1)
    ensures m1.temps == m.temps
  {
    MatchLookup(P, gs, ss, x);
    var id := Lookup(ss, x).value;
    assert MatchVar(P, st, m, id);
    VarTempIndex(P.vars, id);
    WriteStore(P, st, m, id, val, m.pc + 1);
    assert P.code[m.pc] == Store(Address(gs, x), v, 4);
    m1 := State(m.pc + 1, m.temps, Write(m.mem, P.base[VarTemp(P.vars, id).value], Encode(4, val)));
    OneStep(P, m, m1);
  }

  /** The load of a variable that holds a value. */
  lemma LoadStep(P: Prog, gs: Scope, o: Out, ss: Scope, st: Store, m: State, x: string)
    returns (m1: State)
    requires At(P, gs, o, ss, st, m) && Placed(P, GenLoad(o, Address(gs, x)))
    requires ReadVar(ss, st, x).Some?
    ensures m1 == State(m.pc + 1, m.temps[o.nt := ReadVar(ss, st, x).value], m.mem)
    ensures Steps(P.code, P.base, m, 1) == Status.Run(m1)
    ensures At(P, gs, GenLoad(o, Address(gs, x)), ss, st, m1)
    ensures Int32(ReadVar(ss, st, x).value)
  {
    var o1 := GenLoad(o, Address(gs, x));
    MatchLookup(P, gs, ss, x);
    var id := Lookup(ss, x).value;
    assert MatchVar(P, st, m, id);
    assert P.code[m.pc] == Load(o.nt, Address(gs, x), 4, true);
    FreshTemp(P, o, o1, o.nt);
    m1 := SetStep(P, gs, o, o1, ss, st, m, o.nt, ReadVar(ss, st, x).value);
  }

  /** One arithmetic instruction into a fresh temporary. */
  lemma BinStep(P: Prog, gs: Scope, o: Out, ss: Scope, st: Store, m: State,
                op: BinOp, a: Operand, b: Operand, x: int, y: int)
    returns (m1: State)
    requires At(P, gs, o, ss, st, m) && Placed(P, Emit(NewTemp(o), Bin(op, o.nt, a, b, false)))
    requires Value(m, a) == Some(x) && Value(m, b) == Some(y) && BinVal(op, false, x, y).Some?
    ensures m1 == State(m.pc + 1, m.temps[o.nt := BinVal(op, false, x, y).value], m.mem)
    ensures Steps(P.code, P.base, m, 1) == Status.Run(m1)
    ensures At(P, gs, Emit(NewTemp(o), Bin(op, o.nt, a, b, false)), ss, st, m1)
  {
    var o1 := Emit(NewTemp(o), Bin(op, o.nt, a, b, false));
    assert P.code[m.pc] == Bin(op, o.nt, a, b, false);
    FreshTemp(P, o, o1, o.nt);
    m1 := SetStep(P, gs, o, o1, ss, st, m, o.nt, BinVal(op, false, x, y).value);
  }

  // ----- expressions -----

  /** The machine has run from `m`, at `o`, to `m1`, at `o1`, with `v` holding the value `val`. */
  predicate Arrives(P: Prog, gs: Scope, o: Out, o1: Out, ss: Scope, st1: Store, v: Operand, val: int,
                    m: State, k: nat, m1: State) {
    && At(P, gs, o1, ss, st1, m1)
    && Steps(P.code, P.base, m, k) == Status.Run(m1)
    && Value(m1, v) == Some(val)
    && Keeps(o.nt, m, m1)
    && Int32(val)
  }

  predicate Ready(P: Prog, gs: Scope, o: Out, e: Expr, ss: Scope, st: Store, m: State) {
    At(P, gs, o, ss, st, m) && Placed(P, GenExpr(gs, o, e).0) && EvalExpr(e, ss, st).Some?
  }

  predicate Done(P: Prog, gs: Scope, o: Out, e: Expr, ss: Scope, st: Store, m: State, k: nat, m1: State)
    requires ScopeBelow(gs, o.nt) && EvalExpr(e, ss, st).Some?
  {
    var g, r := GenExpr(gs, o, e), EvalExpr(e, ss, st).value;
    Arrives(P, gs, o, g.0, ss, r.1, g.1, r.0, m, k, m1)
  }

  /**
   Running the emitted code from the start of `e` reaches its end, with the result operand
   holding the source value, the store matching the source store, and earlier temporaries kept.
   */
  lemma {:induction false} LowerExprOk(P: Prog, gs: Scope, o: Out, e: Expr, ss: Scope, st: Store, m: State)
    returns (k: nat, m1: State)
    requires Ready(P, gs, o, e, ss, st, m)
    ensures Done(P, gs, o, e, ss, st, m, k, m1)
    decreases e, 1
  {
    hide GoodProg, Placed, WellFormed, MatchScope, MatchStore, IsVarTemp, Extends, Steps;
    match e
    case IntLit(v) =>
      NoStep(P, m);
      k, m1 := 0, m;
    case Ident(x) =>
      MatchLookup(P, gs, ss, x);
      k := 1;
      m1 := LoadStep(P, gs, o, ss, st, m, x);
    case Unary(op, a) => k, m1 := UnaryOk(P, gs, o, e, ss, st, m);
    case PreIncDec(inc, x) => k, m1 := StepOk(P, gs, o, x, inc, false, ss, st, m);
    case PostIncDec(inc, x) => k, m1 := StepOk(P, gs, o, x, inc, true, ss, st, m);
    case Binary(op, a, b) => k, m1 := BinaryOk(P, gs, o, e, ss, st, m);
    case LogAnd(a, b) => k, m1 := AndOk(P, gs, o, e, ss, st, m);
    case LogOr(a, b) => k, m1 := OrOk(P, gs, o, e, ss, st, m);
    case Assign(x, a) => k, m1 := AssignOk(P, gs, o, e, ss, st, m);
    case CompoundAssign(op, x, a) => k, m1 := CompoundOk(P, gs, o, e, ss, st, m);
    case Ternary(c, a, b) => k, m1 := TernaryOk(P, gs, o, e, ss, st, m);
    case Comma(a, b) =>
      var g := GenExpr(gs, o, a);
      Grow(o, g.0);
      PlacedBefore(P, g.0, GenExpr(gs, g.0, b).0);
      var k1, ma := LowerExprOk(P, gs, o, a, ss, st, m);
      var k2, mb := LowerExprOk(P, gs, g.0, b, ss, EvalExpr(a, ss, st).value.1, ma);
      Chain(P, m, k1, ma, k2, mb);
      k, m1 := k1 + k2, mb;
  }

  lemma {:induction false} UnaryOk(P: Prog, gs: Scope, o: Out, e: Expr, ss: Scope, st: Store, m: State)
    returns (k: nat, m1: State)
    requires e.Unary? && Ready(P, gs, o, e, ss, st, m)
    ensures Done(P, gs, o, e, ss, st, m, k, m1)
    decreases e, 0
  {
    hide GoodProg, Placed, WellFormed, MatchScope, MatchStore, IsVarTemp, Extends, Steps;
    var (o1, v) := GenExpr(gs, o, e.operand);
    var (o2, w) := GenUnary(o1, e.uop, v);
    Grow(o, o1);
    Grow(o1, o2);
    PlacedBefore(P, o1, o2);
    var k1, ma := LowerExprOk(P, gs, o, e.operand, ss, st, m);
    var (x, st1) := EvalExpr(e.operand, ss, st).value;
    var y := EvalUnary(e.uop, x).value;
    if e.uop == Plus {
      k, m1 := k1, ma;
    } else {
      FreshTemp(P, o1, o2, o1.nt);
      CodeAt(P, NewTemp(o1), if e.uop == Minus then Un(Neg, o1.nt, v)
                             else if e.uop == Tilde then Un(Not, o1.nt, v)
                             else Bin(Eq, o1.nt, v, Imm(0), false));
      m1 := SetStep(P, gs, o1, o2, ss, st1, ma, o1.nt, y);
      Chain(P, m, k1, ma, 1, m1);
      k := k1 + 1;
    }
  }

  lemma {:induction false} StepOk(P: Prog, gs: Scope, o: Out, x: string, inc: bool, post: bool,
                                  ss: Scope, st: Store, m: State)
    returns (k: nat, m1: State)
    requires At(P, gs, o, ss, st, m) && Placed(P, GenStep(gs, o, x, inc, post).0)
    requires StepVar(ss, st, x, inc, post).Some?
    ensures var g, r := GenStep(gs, o, x, inc, post), StepVar(ss, st, x, inc, post).value;
            Arrives(P, gs, o, g.0, ss, r.1, g.1, r.0, m, k, m1)
  {
    hide GoodProg, Placed, WellFormed, MatchScope, MatchStore, IsVarTemp, Extends, Steps, BinVal, EvalBin, Truncated;
    var op := if inc then Add else Sub;
    var o1 := GenLoad(o, Address(gs, x));
    var o2 := Emit(NewTemp(o1), Bin(op, o1.nt, Temp(o.nt), Imm(1), false));
    var o3 := GenStore(o2, Address(gs, x), Temp(o1.nt));
    Grow(o, o1);
    Grow(o1, o2);
    PlacedBefore(P, o2, o3);
    PlacedBefore(P, o1, o2);
    var ma := LoadStep(P, gs, o, ss, st, m, x);
    var old_ := ReadVar(ss, st, x).value;
    BinAgrees(op, old_, 1);
    var mb := BinStep(P, gs, o1, ss, st, ma, op, Temp(o.nt), Imm(1), old_, 1);
    var v := EvalBin(op, old_, 1).value;
    m1 := StoreStep(P, gs, o2, o3, ss, st, mb, x, Temp(o1.nt), v);
    Chain(P, m, 1, ma, 1, mb);
    Chain(P, m, 2, mb, 1, m1);
    k := 3;
  }

  lemma {:induction false} BinaryOk(P: Prog, gs: Scope, o: Out, e: Expr, ss: Scope, st: Store, m: State)
    returns (k: nat, m1: State)
    requires e.Binary? && Ready(P, gs, o, e, ss, st, m)
    ensures Done(P, gs, o, e, ss, st, m, k, m1)
    decreases e, 0
  {
    hide GoodProg, Placed, WellFormed, MatchScope, MatchStore, IsVarTemp, Extends, Steps, BinVal, EvalBin, Truncated;
    var (o1, lv) := GenExpr(gs, o, e.left);
    var (o2, rv) := GenExpr(gs, o1, e.right);
    var o3 := Emit(NewTemp(o2), Bin(e.op, o2.nt, lv, rv, false));
    Grow(o, o1);
    Grow(o1, o2);
    PlacedBefore(P, o2, o3);
    PlacedBefore(P, o1, o2);
    var k1, ma := LowerExprOk(P, gs, o, e.left, ss, st, m);
    var (x, st1) := EvalExpr(e.left, ss, st).value;
    var k2, mb := LowerExprOk(P, gs, o1, e.right, ss, st1, ma);
    var (y, st2) := EvalExpr(e.right, ss, st1).value;
    BinAgrees(e.op, x, y);
    m1 := BinStep(P, gs, o2, ss, st2, mb, e.op, lv, rv, x, y);
    Chain(P, m, k1, ma, k2, mb);
    Chain(P, m, k1 + k2, mb, 1, m1);
    k := k1 + k2 + 1;
  }

  lemma {:induction false} AssignOk(P: Prog, gs: Scope, o: Out, e: Expr, ss: Scope, st: Store, m: State)
    returns (k: nat, m1: State)
    requires e.Assign? && Ready(P, gs, o, e, ss, st, m)
    ensures Done(P, gs, o, e, ss, st, m, k, m1)
    decreases e, 0
  {
    hide GoodProg, Placed, WellFormed, MatchScope, MatchStore, IsVarTemp, Extends, Steps;
    var (o1, v) := GenExpr(gs, o, e.right);
    var o2 := GenStore(o1, Address(gs, e.name), v);
    Grow(o, o1);
    PlacedBefore(P, o1, o2);
    var k1, ma := LowerExprOk(P, gs, o, e.right, ss, st, m);
    var (x, st1) := EvalExpr(e.right, ss, st).value;
    m1 := StoreStep(P, gs, o1, o2, ss, st1, ma, e.name, v, x);
    Chain(P, m, k1, ma, 1, m1);
    k := k1 + 1;
  }

  lemma {:induction false} CompoundOk(P: Prog, gs: Scope, o: Out, e: Expr, ss: Scope, st: Store, m: State)
    returns (k: nat, m1: State)
    requires e.CompoundAssign? && Ready(P, gs, o, e, ss, st, m)
    ensures Done(P, gs, o, e, ss, st, m, k, m1)
    decreases e, 0
  {
    hide GoodProg, Placed, WellFormed, MatchScope, MatchStore, IsVarTemp, Extends, Steps, BinVal, EvalBin, Truncated;
    var addr := Address(gs, e.name);
    var o1 := GenLoad(o, addr);
    var (o2, rv) := GenExpr(gs, o1, e.right);
    var o3 := Emit(NewTemp(o2), Bin(e.op, o2.nt, Temp(o.nt), rv, false));
    var o4 := GenStore(o3, addr, Temp(o2.nt));
    Grow(o, o1);
    Grow(o1, o2);
    Grow(o2, o3);
    PlacedBefore(P, o3, o4);
    PlacedBefore(P, o2, o3);
    PlacedBefore(P, o1, o2);
    var ma := LoadStep(P, gs, o, ss, st, m, e.name);
    var k2, mb := LowerExprOk(P, gs, o1, e.right, ss, st, ma);
    var (y, st1) := EvalExpr(e.right, ss, st).value;
    var x := ReadVar(ss, st, e.name).value;
    BinAgrees(e.op, x, y);
    var mc := BinStep(P, gs, o2, ss, st1, mb, e.op, Temp(o.nt), rv, x, y);
    m1 := StoreStep(P, gs, o3, o4, ss, st1, mc, e.name, Temp(o2.nt), EvalBin(e.op, x, y).value);
    Chain(P, m, 1, ma, k2, mb);
    Chain(P, m, 1 + k2, mb, 1, mc);
    Chain(P, m, 2 + k2, mc, 1, m1);
    k := k2 + 3;
  }

  // ----- short circuit and ?: -----

  function AndTail(rv: Operand, res: nat, nl: nat): seq<Instr> {
    [Jnz(rv, nl + 2), Jmp(nl + 1), Label(nl + 1), Copy(res, Imm(0)),
     Jmp(nl), Label(nl + 2), Copy(res, Imm(1)), Label(nl)]
  }

  function OrTail(rv: Operand, res: nat, nl: nat): seq<Instr> {
    [Jnz(rv, nl + 2), Copy(res, Imm(0)), Jmp(nl), Label(nl + 2), Copy(res, Imm(1)), Label(nl)]
  }

  lemma AndFalse(P: Prog, gs: Scope, o: Out, rv: Operand, res: nat, nl: nat, ss: Scope, st: Store, m: State)
    returns (m1: State)
    requires Placed(P, FinishAnd(o, rv, res, nl)) && WellFormed(o) && !IsVarTemp(P, res)
    requires At(P, gs, Pt(o, AndTail(rv, res, nl), 2), ss, st, m)
    ensures Steps(P.code, P.base, m, 4) == Status.Run(m1)
    ensures At(P, gs, FinishAnd(o, rv, res, nl), ss, st, m1) && m1.temps == m.temps[res := 0]
  {
    var fin := AndTail(rv, res, nl);
    var ma := HopStep(P, gs, o, fin, 2, 3, ss, st, m);
    var mb := CopyStep(P, gs, o, fin, 3, ss, st, ma, res, Imm(0), 0);
    var mc := HopStep(P, gs, o, fin, 4, 7, ss, st, mb);
    m1 := HopStep(P, gs, o, fin, 7, 8, ss, st, mc);
    assert Pt(o, fin, 8) == FinishAnd(o, rv, res, nl) by { assert fin[..8] == fin; }
    Chain(P, m, 1, ma, 1, mb);
    Chain(P, m, 2, mb, 1, mc);
    Chain(P, m, 3, mc, 1, m1);
  }

  lemma AndTrue(P: Prog, gs: Scope, o: Out, rv: Operand, res: nat, nl: nat, ss: Scope, st: Store, m: State)
    returns (m1: State)
    requires Placed(P, FinishAnd(o, rv, res, nl)) && WellFormed(o) && !IsVarTemp(P, res)
    requires At(P, gs, Pt(o, AndTail(rv, res, nl), 5), ss, st, m)
    ensures Steps(P.code, P.base, m, 3) == Status.Run(m1)
    ensures At(P, gs, FinishAnd(o, rv, res, nl), ss, st, m1) && m1.temps == m.temps[res := 1]
  {
    var fin := AndTail(rv, res, nl);
    var ma := HopStep(P, gs, o, fin, 5, 6, ss, st, m);
    var mb := CopyStep(P, gs, o, fin, 6, ss, st, ma, res, Imm(1), 1);
    m1 := HopStep(P, gs, o, fin, 7, 8, ss, st, mb);
    assert Pt(o, fin, 8) == FinishAnd(o, rv, res, nl) by { assert fin[..8] == fin; }
    Chain(P, m, 1, ma, 1, mb);
    Chain(P, m, 2, mb, 1, m1);
  }

  /** After the right operand of `&&`, whose value is `y`. */
  lemma AndRight(P: Prog, gs: Scope, o: Out, rv: Operand, res: nat, nl: nat, ss: Scope, st: Store, m: State, y: int)
    returns (k: nat, m1: State)
    requires Placed(P, FinishAnd(o, rv, res, nl)) && WellFormed(o) && !IsVarTemp(P, res)
    requires At(P, gs, o, ss, st, m) && Value(m, rv) == Some(y)
    ensures Steps(P.code, P.base, m, k) == Status.Run(m1)
    ensures At(P, gs, FinishAnd(o, rv, res, nl), ss, st, m1) && m1.temps == m.temps[res := Bool(y != 0)]
  {
    var fin := AndTail(rv, res, nl);
    PointAt(P, o, fin, 0);
    PointAt(P, o, fin, 1);
    PointAt(P, o, fin, 5);
    if y != 0 {
      var ma := CondStep(P, gs, o, Pt(o, fin, 5), ss, st, m, rv, y, fin[0], true);
      m1 := AndTrue(P, gs, o, rv, res, nl, ss, st, ma);
      Chain(P, m, 1, ma, 3, m1);
      k := 4;
    } else {
      var ma := CondStep(P, gs, o, Pt(o, fin, 1), ss, st, m, rv, y, fin[0], false);
      var mb := HopStep(P, gs, o, fin, 1, 2, ss, st, ma);
      m1 := AndFalse(P, gs, o, rv, res, nl, ss, st, mb);
      Chain(P, m, 1, ma, 1, mb);
      Chain(P, m, 2, mb, 4, m1);
      k := 6;
    }
  }

  lemma {:induction false} AndOk(P: Prog, gs: Scope, o: Out, e: Expr, ss: Scope, st: Store, m: State)
    returns (k: nat, m1: State)
    requires e.LogAnd? && Ready(P, gs, o, e, ss, st, m)
    ensures Done(P, gs, o, e, ss, st, m, k, m1)
    decreases e, 0
  {
    hide GoodProg, Placed, WellFormed, MatchScope, MatchStore, IsVarTemp, Extends, Steps;
    var o0 := NewLabels(NewTemp(o), 3);
    var (o1, lv) := GenExpr(gs, o0, e.left);
    var o2 := Emit(o1, Jz(lv, o.nl + 1));
    var (o3, rv) := GenExpr(gs, o2, e.right);
    var o4 := FinishAnd(o3, rv, o.nt, o.nl);
    var fin := AndTail(rv, o.nt, o.nl);
    Grow(o, o0);
    Grow(o0, o1);
    Grow(o1, o2);
    Grow(o2, o3);
    PlacedBefore(P, o3, o4);
    PlacedBefore(P, o2, o3);
    PlacedBefore(P, o1, o2);
    PlacedBefore(P, o0, o1);
    PointAt(P, o3, fin, 2);
    FreshTemp(P, o, o0, o.nt);
    var k1, ma := LowerExprOk(P, gs, o0, e.left, ss, st, m);
    var (x, st1) := EvalExpr(e.left, ss, st).value;
    var jz := Jz(lv, o.nl + 1);
    CodeAt(P, o1, jz);
    if x == 0 {
      var mb := CondStep(P, gs, o1, Pt(o3, fin, 2), ss, st1, ma, lv, x, jz, true);
      Chain(P, m, k1, ma, 1, mb);
      m1 := AndFalse(P, gs, o3, rv, o.nt, o.nl, ss, st1, mb);
      Chain(P, m, k1 + 1, mb, 4, m1);
      k := k1 + 5;
    } else {
      var mb := CondStep(P, gs, o1, o2, ss, st1, ma, lv, x, jz, false);
      Chain(P, m, k1, ma, 1, mb);
      var k2, mc := LowerExprOk(P, gs, o2, e.right, ss, st1, mb);
      Chain(P, m, k1 + 1, mb, k2, mc);
      var (y, st2) := EvalExpr(e.right, ss, st1).value;
      var k3;
      k3, m1 := AndRight(P, gs, o3, rv, o.nt, o.nl, ss, st2, mc, y);
      Chain(P, m, k1 + 1 + k2, mc, k3, m1);
      k := k1 + 1 + k2 + k3;
    }
  }

  lemma OrTrue(P: Prog, gs: Scope, o: Out, rv: Operand, res: nat, nl: nat, ss: Scope, st: Store, m: State)
    returns (m1: State)
    requires Placed(P, FinishOr(o, rv, res, nl)) && WellFormed(o) && !IsVarTemp(P, res)
    requires At(P, gs, Pt(o, OrTail(rv, res, nl), 3), ss, st, m)
    ensures Steps(P.code, P.base, m, 3) == Status.Run(m1)
    ensures At(P, gs, FinishOr(o, rv, res, nl), ss, st, m1) && m1.temps == m.temps[res := 1]
  {
    var fin := OrTail(rv, res, nl);
    var ma := HopStep(P, gs, o, fin, 3, 4, ss, st, m);
    var mb := CopyStep(P, gs, o, fin, 4, ss, st, ma, res, Imm(1), 1);
    m1 := HopStep(P, gs, o, fin, 5, 6, ss, st, mb);
    assert Pt(o, fin, 6) == FinishOr(o, rv, res, nl) by { assert fin[..6] == fin; }
    Chain(P, m, 1, ma, 1, mb);
    Chain(P, m, 2, mb, 1, m1);
  }

  /** After the right operand of `||`, whose value is `y`. */
  lemma OrRight(P: Prog, gs: Scope, o: Out, rv: Operand, res: nat, nl: nat, ss: Scope, st: Store, m: State, y: int)
    returns (m1: State)
    requires Placed(P, FinishOr(o, rv, res, nl)) && WellFormed(o) && !IsVarTemp(P, res)
    requires At(P, gs, o, ss, st, m) && Value(m, rv) == Some(y)
    ensures Steps(P.code, P.base, m, 4) == Status.Run(m1)
    ensures At(P, gs, FinishOr(o, rv, res, nl), ss, st, m1) && m1.temps == m.temps[res := Bool(y != 0)]
  {
    var fin := OrTail(rv, res, nl);
    PointAt(P, o, fin, 0);
    PointAt(P, o, fin, 1);
    PointAt(P, o, fin, 3);
    if y != 0 {
      var ma := CondStep(P, gs, o, Pt(o, fin, 3), ss, st, m, rv, y, fin[0], true);
      m1 := OrTrue(P, gs, o, rv, res, nl, ss, st, ma);
      Chain(P, m, 1, ma, 3, m1);
    } else {
      var ma := CondStep(P, gs, o, Pt(o, fin, 1), ss, st, m, rv, y, fin[0], false);
      var mb := CopyStep(P, gs, o, fin, 1, ss, st, ma, res, Imm(0), 0);
      var mc := HopStep(P, gs, o, fin, 2, 5, ss, st, mb);
      m1 := HopStep(P, gs, o, fin, 5, 6, ss, st, mc);
      assert Pt(o, fin, 6) == FinishOr(o, rv, res, nl) by { assert fin[..6] == fin; }
      Chain(P, m, 1, ma, 1, mb);
      Chain(P, m, 2, mb, 1, mc);
      Chain(P, m, 3, mc, 1, m1);
    }
  }

  lemma {:induction false} OrOk(P: Prog, gs: Scope, o: Out, e: Expr, ss: Scope, st: Store, m: State)
    returns (k: nat, m1: State)
    requires e.LogOr? && Ready(P, gs, o, e, ss, st, m)
    ensures Done(P, gs, o, e, ss, st, m, k, m1)
    decreases e, 0
  {
    hide GoodProg, Placed, WellFormed, MatchScope, MatchStore, IsVarTemp, Extends, Steps;
    var o0 := NewLabels(NewTemp(o), 3);
    var (o1, lv) := GenExpr(gs, o0, e.left);
    var o2 := Emit(o1, Jnz(lv, o.nl + 2));
    var (o3, rv) := GenExpr(gs, o2, e.right);
    var o4 := FinishOr(o3, rv, o.nt, o.nl);
    var fin := OrTail(rv, o.nt, o.nl);
    Grow(o, o0);
    Grow(o0, o1);
    Grow(o1, o2);
    Grow(o2, o3);
    PlacedBefore(P, o3, o4);
    PlacedBefore(P, o2, o3);
    PlacedBefore(P, o1, o2);
    PlacedBefore(P, o0, o1);
    PointAt(P, o3, fin, 3);
    FreshTemp(P, o, o0, o.nt);
    var k1, ma := LowerExprOk(P, gs, o0, e.left, ss, st, m);
    var (x, st1) := EvalExpr(e.left, ss, st).value;
    var jnz := Jnz(lv, o.nl + 2);
    CodeAt(P, o1, jnz);
    if x != 0 {
      var mb := CondStep(P, gs, o1, Pt(o3, fin, 3), ss, st1, ma, lv, x, jnz, true);
      Chain(P, m, k1, ma, 1, mb);
      m1 := OrTrue(P, gs, o3, rv, o.nt, o.nl, ss, st1, mb);
      Chain(P, m, k1 + 1, mb, 3, m1);
      k := k1 + 4;
    } else {
      var mb := CondStep(P, gs, o1, o2, ss, st1, ma, lv, x, jnz, false);
      Chain(P, m, k1, ma, 1, mb);
      var k2, mc := LowerExprOk(P, gs, o2, e.right, ss, st1, mb);
      Chain(P, m, k1 + 1, mb, k2, mc);
      var (y, st2) := EvalExpr(e.right, ss, st1).value;
      m1 := OrRight(P, gs, o3, rv, o.nt, o.nl, ss, st2, mc, y);
      Chain(P, m, k1 + 1 + k2, mc, 4, m1);
      k := k1 + 1 + k2 + 4;
    }
  }

  /** The generator states inside a conditional expression, and the constant instructions between them. */
  datatype TernaryCode = TernaryCode(cond: (Out, Operand), thn: (Out, Operand), els: (Out, Operand), end: Out)

  function BranchHead(nl: nat, cv: Operand): seq<Instr> {
    [Jz(cv, nl + 1), Label(nl)]
  }

  function ThenTail(res: nat, nl: nat, av: Operand): seq<Instr> {
    [Copy(res, av), Jmp(nl + 2), Label(nl + 1)]
  }

  function ElseTail(res: nat, nl: nat, bv: Operand): seq<Instr> {
    [Copy(res, bv), Label(nl + 2)]
  }

  function After(o: Out, fin: seq<Instr>): Out {
    o.(code := o.code + fin)
  }

  function TernaryPoints(gs: Scope, o: Out, e: Expr): (t: TernaryCode)
    requires e.Ternary? && ScopeBelow(gs, o.nt)
    ensures GenExpr(gs, o, e) == (t.end, Temp(o.nt))
    ensures o.nt < t.cond.0.nt <= t.thn.0.nt <= t.els.0.nt
    ensures t.cond == GenExpr(gs, NewTemp(NewLabels(o, 3)), e.cond)
    ensures t.thn == GenExpr(gs, After(t.cond.0, BranchHead(o.nl, t.cond.1)), e.thn)
    ensures t.els == GenExpr(gs, After(t.thn.0, ThenTail(o.nt, o.nl, t.thn.1)), e.els)
    ensures t.end == After(t.els.0, ElseTail(o.nt, o.nl, t.els.1))
  {
    var c := GenExpr(gs, NewTemp(NewLabels(o, 3)), e.cond);
    assert After(c.0, BranchHead(o.nl, c.1)) == Emit(Emit(c.0, Jz(c.1, o.nl + 1)), Label(o.nl));
    var a := GenExpr(gs, After(c.0, BranchHead(o.nl, c.1)), e.thn);
    assert After(a.0, ThenTail(o.nt, o.nl, a.1))
        == Emit(Emit(Emit(a.0, Copy(o.nt, a.1)), Jmp(o.nl + 2)), Label(o.nl + 1));
    var b := GenExpr(gs, After(a.0, ThenTail(o.nt, o.nl, a.1)), e.els);
    assert After(b.0, ElseTail(o.nt, o.nl, b.1)) == Emit(Emit(b.0, Copy(o.nt, b.1)), Label(o.nl + 2));
    TernaryCode(c, a, b, After(b.0, ElseTail(o.nt, o.nl, b.1)))
  }

  predicate TernaryPlaced(P: Prog, o: Out, t: TernaryCode) {
    && WellFormed(t.cond.0) && WellFormed(t.thn.0) && WellFormed(t.els.0)
    && Placed(P, After(t.cond.0, BranchHead(o.nl, t.cond.1)))
    && Placed(P, After(t.thn.0, ThenTail(o.nt, o.nl, t.thn.1)))
    && Placed(P, t.thn.0) && Placed(P, t.els.0)
    && Placed(P, t.end)
    && !IsVarTemp(P, o.nt)
  }

  lemma TernaryIsPlaced(P: Prog, gs: Scope, o: Out, e: Expr)
    requires e.Ternary? && ScopeBelow(gs, o.nt) && WellFormed(o)
    requires Placed(P, o) && Placed(P, GenExpr(gs, o, e).0)
    ensures TernaryPlaced(P, o, TernaryPoints(gs, o, e))
    ensures Placed(P, TernaryPoints(gs, o, e).cond.0)
  {
    var t := TernaryPoints(gs, o, e);
    PlacedBefore(P, t.els.0, t.end);
    PlacedBefore(P, After(t.thn.0, ThenTail(o.nt, o.nl, t.thn.1)), t.els.0);
    PlacedBefore(P, t.thn.0, After(t.thn.0, ThenTail(o.nt, o.nl, t.thn.1)));
    PlacedBefore(P, After(t.cond.0, BranchHead(o.nl, t.cond.1)), t.thn.0);
    PlacedBefore(P, t.cond.0, After(t.cond.0, BranchHead(o.nl, t.cond.1)));
    FreshTemp(P, o, t.cond.0, o.nt);
  }

  lemma {:induction false} TernaryOk(P: Prog, gs: Scope, o: Out, e: Expr, ss: Scope, st: Store, m: State)
    returns (k: nat, m1: State)
    requires e.Ternary? && Ready(P, gs, o, e, ss, st, m)
    ensures Done(P, gs, o, e, ss, st, m, k, m1)
    decreases e, 0
  {
    hide GoodProg, Placed, WellFormed, MatchScope, MatchStore, IsVarTemp, Extends, Steps;
    var t := TernaryPoints(gs, o, e);
    TernaryIsPlaced(P, gs, o, e);
    var o0 := NewTemp(NewLabels(o, 3));
    Grow(o, NewLabels(o, 3));
    Grow(NewLabels(o, 3), o0);
    PlacedBefore(P, o0, t.cond.0);
    var k1, ma := LowerExprOk(P, gs, o0, e.cond, ss, st, m);
    var (x, st1) := EvalExpr(e.cond, ss, st).value;
    var k2, mb, k3;
    if x != 0 {
      mb := BranchThen(P, gs, o, t, ss, st1, ma, x);
      var o2 := After(t.cond.0, BranchHead(o.nl, t.cond.1));
      k2, m1 := LowerExprOk(P, gs, o2, e.thn, ss, st1, mb);
      var (y, st2) := EvalExpr(e.thn, ss, st1).value;
      var mc := FinishThen(P, gs, o, t, ss, st2, m1, y);
      Chain(P, mb, k2, m1, 3, mc);
      m1, k2, k3 := mc, k2 + 3, 2;
    } else {
      mb := BranchElse(P, gs, o, t, ss, st1, ma, x);
      var o4 := After(t.thn.0, ThenTail(o.nt, o.nl, t.thn.1));
      k2, m1 := LowerExprOk(P, gs, o4, e.els, ss, st1, mb);
      var (y, st2) := EvalExpr(e.els, ss, st1).value;
      var mc := FinishElse(P, gs, o, t, ss, st2, m1, y);
      Chain(P, mb, k2, m1, 2, mc);
      m1, k2, k3 := mc, k2 + 2, 2;
    }
    Chain(P, m, k1, ma, 2, mb);
    Chain(P, m, k1 + 2, mb, k2, m1);
    k := k1 + 2 + k2;
  }

  lemma BranchThen(P: Prog, gs: Scope, o: Out, t: TernaryCode, ss: Scope, st: Store, m: State, x: int)
    returns (m1: State)
    requires TernaryPlaced(P, o, t) && At(P, gs, t.cond.0, ss, st, m)
    requires Value(m, t.cond.1) == Some(x) && x != 0
    ensures Steps(P.code, P.base, m, 2) == Status.Run(m1) && m1.temps == m.temps
    ensures At(P, gs, After(t.cond.0, BranchHead(o.nl, t.cond.1)), ss, st, m1)
  {
    var fin := BranchHead(o.nl, t.cond.1);
    PointAt(P, t.cond.0, fin, 0);
    PointAt(P, t.cond.0, fin, 1);
    var ma := CondStep(P, gs, t.cond.0, Pt(t.cond.0, fin, 1), ss, st, m, t.cond.1, x, fin[0], false);
    m1 := HopStep(P, gs, t.cond.0, fin, 1, 2, ss, st, ma);
    Chain(P, m, 1, ma, 1, m1);
  }

  lemma BranchElse(P: Prog, gs: Scope, o: Out, t: TernaryCode, ss: Scope, st: Store, m: State, x: int)
    returns (m1: State)
    requires TernaryPlaced(P, o, t) && At(P, gs, t.cond.0, ss, st, m) && t.cond.0.nt <= t.thn.0.nt
    requires Value(m, t.cond.1) == Some(x) && x == 0
    ensures Steps(P.code, P.base, m, 2) == Status.Run(m1) && m1.temps == m.temps
    ensures At(P, gs, After(t.thn.0, ThenTail(o.nt, o.nl, t.thn.1)), ss, st, m1)
  {
    var head, fin := BranchHead(o.nl, t.cond.1), ThenTail(o.nt, o.nl, t.thn.1);
    PointAt(P, t.cond.0, head, 0);
    PointAt(P, t.thn.0, fin, 2);
    var ma := CondStep(P, gs, t.cond.0, Pt(t.thn.0, fin, 2), ss, st, m, t.cond.1, x, head[0], true);
    m1 := HopStep(P, gs, t.thn.0, fin, 2, 3, ss, st, ma);
    Chain(P, m, 1, ma, 1, m1);
  }

  lemma FinishThen(P: Prog, gs: Scope, o: Out, t: TernaryCode, ss: Scope, st: Store, m: State, y: int)
    returns (m1: State)
    requires TernaryPlaced(P, o, t) && At(P, gs, t.thn.0, ss, st, m) && t.thn.0.nt <= t.els.0.nt
    requires Value(m, t.thn.1) == Some(y) && t.end == After(t.els.0, ElseTail(o.nt, o.nl, t.els.1))
    ensures Steps(P.code, P.base, m, 3) == Status.Run(m1) && m1.temps == m.temps[o.nt := y]
    ensures At(P, gs, t.end, ss, st, m1)
  {
    var fin, tail := ThenTail(o.nt, o.nl, t.thn.1), ElseTail(o.nt, o.nl, t.els.1);
    PointAt(P, t.thn.0, fin, 1);
    PointAt(P, t.els.0, tail, 1);
    assert Pt(t.thn.0, fin, 0) == t.thn.0 by { assert t.thn.0.code + fin[..0] == t.thn.0.code; }
    var ma := CopyStep(P, gs, t.thn.0, fin, 0, ss, st, m, o.nt, t.thn.1, y);
    var mb := JumpStep(P, gs, Pt(t.thn.0, fin, 1), Pt(t.els.0, tail, 1), ss, st, ma);
    m1 := HopStep(P, gs, t.els.0, tail, 1, 2, ss, st, mb);
    Chain(P, m, 1, ma, 1, mb);
    Chain(P, m, 2, mb, 1, m1);
  }

  lemma FinishElse(P: Prog, gs: Scope, o: Out, t: TernaryCode, ss: Scope, st: Store, m: State, y: int)
    returns (m1: State)
    requires TernaryPlaced(P, o, t) && At(P, gs, t.els.0, ss, st, m)
    requires Value(m, t.els.1) == Some(y) && t.end == After(t.els.0, ElseTail(o.nt, o.nl, t.els.1))
    ensures Steps(P.code, P.base, m, 2) == Status.Run(m1) && m1.temps == m.temps[o.nt := y]
    ensures At(P, gs, t.end, ss, st, m1)
  {
    var tail := ElseTail(o.nt, o.nl, t.els.1);
    assert Pt(t.els.0, tail, 0) == t.els.0 by { assert t.els.0.code + tail[..0] == t.els.0.code; }
    var ma := CopyStep(P, gs, t.els.0, tail, 0, ss, st, m, o.nt, t.els.1, y);
    m1 := HopStep(P, gs, t.els.0, tail, 1, 2, ss, st, ma);
    Chain(P, m, 1, ma, 1, m1);
  }
}
