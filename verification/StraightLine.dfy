/** Running code without jumps: one instruction after another, from where one state of the output ends. */
module StraightLine {
  import opened Wrappers
  import opened Bits
  import opened Ir
  import opened IrGen

  function EmitNew(o: Out, i: Instr): Out {
    Emit(NewTemp(o), i)
  }

  predicate Keeps(m: State, m1: State, nt: nat) {
    forall t :: t in m.temps && t < nt ==> t in m1.temps && m1.temps[t] == m.temps[t]
  }

  /** From the end of `o` to the end of `o1`, leaving the temporaries known to `o` alone. */
  predicate Ran(code: seq<Instr>, base: seq<int>, o: Out, m: State, k: nat, o1: Out, m1: State) {
    && m.pc == |o.code| && m1.pc == |o1.code| && o1.code <= code && o.nt <= o1.nt
    && Steps(code, base, m, k) == Run(m1) && Keeps(m, m1, o.nt)
  }

  lemma RanNothing(code: seq<Instr>, base: seq<int>, o: Out, m: State)
    requires m.pc == |o.code| && o.code <= code
    ensures Ran(code, base, o, m, 0, o, m)
  {
  }

  lemma RanThen(code: seq<Instr>, base: seq<int>, o: Out, m: State, k1: nat, o1: Out, m1: State, k2: nat, o2: Out, m2: State)
    requires Ran(code, base, o, m, k1, o1, m1) && Ran(code, base, o1, m1, k2, o2, m2)
    ensures Ran(code, base, o, m, k1 + k2, o2, m2)
  {
    StepsAdd(code, base, m, k1, k2);
  }

  lemma RanEnds(code: seq<Instr>, base: seq<int>, o: Out, m: State, k: nat, o1: Out, m1: State)
    requires Ran(code, base, o, m, k, o1, m1)
    ensures m1.pc == |o1.code| && o.nt <= o1.nt && o1.code <= code
  {
  }

  /** An operand known before is worth the same afterwards. */
  lemma RanKeeps(code: seq<Instr>, base: seq<int>, o: Out, m: State, k: nat, o1: Out, m1: State, v: Operand)
    requires Ran(code, base, o, m, k, o1, m1) && Below(v, o.nt) && Value(m, v).Some?
    ensures m1.pc == |o1.code| && o.nt <= o1.nt && o1.code <= code && Value(m1, v) == Value(m, v)
  {
  }

  /** A temporary allocated without an instruction. */
  lemma RanTemp(code: seq<Instr>, base: seq<int>, o: Out, m: State, k: nat, o1: Out, m1: State)
    requires Ran(code, base, o, m, k, o1, m1)
    ensures Ran(code, base, o, m, k, NewTemp(o1), m1)
  {
  }

  lemma OneStep(code: seq<Instr>, base: seq<int>, m: State, m1: State)
    requires Step(code, base, m) == Run(m1)
    ensures Steps(code, base, m, 1) == Run(m1)
  {
    hide Step;
    assert Steps(code, base, m1, 0) == Run(m1);
  }

  lemma CodeAt(code: seq<Instr>, o: Out, i: Instr)
    requires Emit(o, i).code <= code
    ensures |o.code| < |code| && code[|o.code|] == i && o.code <= code
  {
    assert Emit(o, i).code[|o.code|] == i;
  }

  /** An instruction that sets a fresh temporary. */
  lemma NewRuns(code: seq<Instr>, base: seq<int>, o: Out, i: Instr, m: State, x: int) returns (m1: State)
    requires m.pc == |o.code| && EmitNew(o, i).code <= code && Step(code, base, m) == Set(m, o.nt, x)
    ensures Ran(code, base, o, m, 1, EmitNew(o, i), m1)
    ensures m1.mem == m.mem && m1.pc == |EmitNew(o, i).code| && Value(m1, Temp(o.nt)) == Some(x)
  {
    hide Step, Steps;
    m1 := m.(pc := m.pc + 1, temps := m.temps[o.nt := x]);
    OneStep(code, base, m, m1);
  }

  lemma BinRuns(code: seq<Instr>, base: seq<int>, o: Out, m: State, op: BinOp, a: Operand, b: Operand, x: int, y: int)
    returns (m1: State)
    requires m.pc == |o.code| && EmitNew(o, Bin(op, o.nt, a, b, false)).code <= code
    requires Value(m, a) == Some(x) && Value(m, b) == Some(y) && BinVal(op, false, x, y).Some?
    ensures Ran(code, base, o, m, 1, EmitNew(o, Bin(op, o.nt, a, b, false)), m1)
    ensures m1.mem == m.mem && m1.pc == |EmitNew(o, Bin(op, o.nt, a, b, false)).code|
    ensures Value(m1, Temp(o.nt)) == BinVal(op, false, x, y)
  {
    hide BinVal, Ran;
    var i := Bin(op, o.nt, a, b, false);
    CodeAt(code, NewTemp(o), i);
    m1 := NewRuns(code, base, o, i, m, BinVal(op, false, x, y).value);
  }

  lemma WriteRuns(code: seq<Instr>, base: seq<int>, o: Out, addr: Operand, v: Operand, size: nat, m: State, a: int, x: int)
    returns (m1: State)
    requires m.pc == |o.code| && Emit(o, Store(addr, v, size)).code <= code
    requires Value(m, addr) == Some(a) && Value(m, v) == Some(x) && Width(size) == size && InBounds(m.mem, a, size)
    ensures Ran(code, base, o, m, 1, Emit(o, Store(addr, v, size)), m1)
    ensures m1.mem == Write(m.mem, a, Encode(size, x)) && m1.temps == m.temps
  {
    hide Encode, Write, Steps;
    CodeAt(code, o, Store(addr, v, size));
    m1 := m.(pc := m.pc + 1, mem := Write(m.mem, a, Encode(size, x)));
    OneStep(code, base, m, m1);
  }
}
