/**
 How a state of the IR machine represents a state of the source program, and the primitive
 steps of the simulation proof.
 */
module Simulation {
  import opened Wrappers
  import opened Bits
  import opened Ast
  import opened Ir
  import opened IrGen
  import opened Semantics

  /** A finished function placed in memory: `base[t]` is the address of the region of temporary `t`. */
  datatype Prog = Prog(code: seq<Instr>, base: seq<int>, vars: seq<(nat, nat)>)

  predicate UniqueLabels(code: seq<Instr>) {
    forall i, j :: 0 <= i < |code| && 0 <= j < |code| && code[i].Label? && code[i] == code[j] ==> i == j
  }

  predicate Disjoint4(a: int, b: int) {
    a + 4 <= b || b + 4 <= a
  }

  /** Declarations are distinct nodes and the regions of their temporaries do not overlap. */
  predicate GoodProg(P: Prog) {
    && UniqueLabels(P.code)
    && (forall i :: 0 <= i < |P.vars| ==> P.vars[i].1 < |P.base|)
    && (forall i, j :: 0 <= i < j < |P.vars| ==> P.vars[i].0 != P.vars[j].0)
    && (forall i, j :: 0 <= i < j < |P.vars| ==>
          P.vars[i].1 != P.vars[j].1 && Disjoint4(P.base[P.vars[i].1], P.base[P.vars[j].1]))
  }

  /** `o` is an intermediate generator state on the way to `P`. */
  predicate Placed(P: Prog, o: Out) {
    && o.code <= P.code
    && o.vars <= P.vars
    && (forall i :: 0 <= i < |o.vars| ==> P.vars[i].1 < o.nt)
    && (forall i :: |o.vars| <= i < |P.vars| ==> o.nt <= P.vars[i].1)
  }

  /** Recorded declarations lie below the counter, and label 0 is never handed out. */
  predicate WellFormed(o: Out) {
    && o.nl >= 1
    && forall i :: 0 <= i < |o.vars| ==> o.vars[i].1 < o.nt
  }

  lemma PlacedBefore(P: Prog, o1: Out, o2: Out)
    requires WellFormed(o1) && Extends(o1, o2) && Placed(P, o2)
    ensures Placed(P, o1)
  {
  }

  lemma Grow(o1: Out, o2: Out)
    requires WellFormed(o1) && Extends(o1, o2)
    ensures WellFormed(o2)
  {
  }

  lemma LabelsFromOne(o: Out)
    requires WellFormed(o)
    ensures o.nl >= 1
  {
  }

  lemma CodeAt(P: Prog, o: Out, i: Instr)
    requires Placed(P, Emit(o, i))
    ensures |o.code| < |P.code| && P.code[|o.code|] == i
  {
    assert Emit(o, i).code[|o.code|] == i;
  }

  predicate IsVarTemp(P: Prog, t: nat) {
    exists i :: 0 <= i < |P.vars| && P.vars[i].1 == t
  }

  /** The temporary that addresses declaration `id`. */
  function VarTemp(vars: seq<(nat, nat)>, id: nat): Option<nat> {
    if vars == [] then None
    else if vars[0].0 == id then Some(vars[0].1)
    else VarTemp(vars[1..], id)
  }

  lemma {:induction false} VarTempIndex(vars: seq<(nat, nat)>, id: nat)
    ensures VarTemp(vars, id).Some? ==>
              exists i :: 0 <= i < |vars| && vars[i] == (id, VarTemp(vars, id).value)
  {
    if vars != [] && vars[0].0 != id {
      VarTempIndex(vars[1..], id);
      if VarTemp(vars, id).Some? {
        var i :| 0 <= i < |vars[1..]| && vars[1..][i] == (id, VarTemp(vars, id).value);
        assert vars[i + 1] == (id, VarTemp(vars, id).value);
      }
    }
  }

  lemma {:induction false} VarTempAt(vars: seq<(nat, nat)>, i: nat)
    requires i < |vars|
    requires forall j, k :: 0 <= j < k < |vars| ==> vars[j].0 != vars[k].0
    ensures VarTemp(vars, vars[i].0) == Some(vars[i].1)
  {
    if i > 0 {
      VarTempAt(vars[1..], i - 1);
    }
  }

  /** The generator's scope chain and the source's bind the same names to the same declarations. */
  predicate MatchScope(P: Prog, gs: Scope, ss: Scope) {
    && |gs| == |ss|
    && forall i :: 0 <= i < |gs| ==> gs[i].0 == ss[i].0 && VarTemp(P.vars, ss[i].1) == Some(gs[i].1)
  }

  lemma {:induction false} MatchLookup(P: Prog, gs: Scope, ss: Scope, x: string)
    requires MatchScope(P, gs, ss)
    ensures Lookup(ss, x).None? <==> Lookup(gs, x).None?
    ensures Lookup(ss, x).Some? ==> VarTemp(P.vars, Lookup(ss, x).value) == Lookup(gs, x)
  {
    if gs != [] && gs[0].0 != x {
      MatchLookup(P, gs[1..], ss[1..], x);
    }
  }

  /** A reached declaration's temporary holds its address, and its region the sign-extended value. */
  predicate MatchVar(P: Prog, st: Store, m: State, id: nat)
    requires id in st
  {
    var t := VarTemp(P.vars, id);
    && t.Some? && t.value < |P.base|
    && t.value in m.temps && m.temps[t.value] == P.base[t.value]
    && (st[id].Some? ==>
          && Int32(st[id].value)
          && InBounds(m.mem, P.base[t.value], 4)
          && DecodeS(Read(m.mem, P.base[t.value], 4)) == st[id].value)
  }

  predicate MatchStore(P: Prog, st: Store, m: State) {
    && (forall i :: 0 <= i < |P.vars| ==> P.vars[i].1 < |P.base| && InBounds(m.mem, P.base[P.vars[i].1], 4))
    && forall id :: id in st ==> MatchVar(P, st, m, id)
  }

  /** Everything the simulation carries from one point of the code to the next. */
  predicate At(P: Prog, gs: Scope, o: Out, ss: Scope, st: Store, m: State) {
    && GoodProg(P) && Placed(P, o) && WellFormed(o)
    && ScopeBelow(gs, o.nt) && MatchScope(P, gs, ss)
    && MatchStore(P, st, m)
    && m.pc == |o.code|
  }

  /** Temporaries below `nt` keep their values. */
  predicate Keeps(nt: nat, m: State, m1: State) {
    forall t :: t < nt && t in m.temps ==> t in m1.temps && m1.temps[t] == m.temps[t]
  }

  lemma FreshTemp(P: Prog, o1: Out, o2: Out, t: nat)
    requires Placed(P, o1) && Placed(P, o2) && o1.vars == o2.vars && o1.nt <= t < o2.nt
    ensures !IsVarTemp(P, t)
  {
  }

  lemma SetKeepsStore(P: Prog, st: Store, m: State, t: nat, v: int, pc: nat)
    requires MatchStore(P, st, m) && !IsVarTemp(P, t)
    ensures MatchStore(P, st, State(pc, m.temps[t := v], m.mem))
  {
    var m1 := State(pc, m.temps[t := v], m.mem);
    forall id | id in st
      ensures MatchVar(P, st, m1, id)
    {
      assert MatchVar(P, st, m, id);
      VarTempIndex(P.vars, id);
    }
  }

  lemma MoveKeepsStore(P: Prog, st: Store, m: State, pc: nat)
    requires MatchStore(P, st, m)
    ensures MatchStore(P, st, m.(pc := pc))
  {
    forall id | id in st
      ensures MatchVar(P, st, m.(pc := pc), id)
    {
      assert MatchVar(P, st, m, id);
    }
  }

  /** Where the region of declaration `id` stands in `P.vars`. */
  lemma VarIndex(P: Prog, st: Store, m: State, id: nat) returns (i: nat)
    requires MatchStore(P, st, m) && id in st
    ensures i < |P.vars| && P.vars[i].0 == id && VarTemp(P.vars, id) == Some(P.vars[i].1)
    ensures P.vars[i].1 < |P.base| && InBounds(m.mem, P.base[P.vars[i].1], 4)
  {
    assert MatchVar(P, st, m, id);
    VarTempIndex(P.vars, id);
    i :| 0 <= i < |P.vars| && P.vars[i] == (id, VarTemp(P.vars, id).value);
  }

  lemma WriteOther(P: Prog, st: Store, m: State, id: nat, id2: nat, bs: seq<byte>)
    requires GoodProg(P) && MatchStore(P, st, m) && id in st && id2 in st && id2 != id && |bs| == 4
    ensures var a := P.base[VarTemp(P.vars, id).value];
            MatchVar(P, st, m.(mem := Write(m.mem, a, bs)), id2)
  {
    var i := VarIndex(P, st, m, id);
    var j := VarIndex(P, st, m, id2);
    assert MatchVar(P, st, m, id2);
    assert Disjoint4(P.base[P.vars[i].1], P.base[P.vars[j].1]) by {
      assert i < j || j < i;
    }
    ReadElsewhere(m.mem, P.base[P.vars[i].1], bs, P.base[P.vars[j].1], 4);
  }

  /** Storing an `int` through a declaration's address changes that object and no other. */
  lemma WriteStore(P: Prog, st: Store, m: State, id: nat, v: int, pc: nat)
    requires GoodProg(P) && MatchStore(P, st, m) && id in st && Int32(v)
    ensures VarTemp(P.vars, id).Some? && VarTemp(P.vars, id).value < |P.base|
    ensures var a := P.base[VarTemp(P.vars, id).value];
            MatchStore(P, st[id := Some(v)], State(pc, m.temps, Write(m.mem, a, Encode(4, v))))
  {
    hide GoodProg, Write, Read;
    var i := VarIndex(P, st, m, id);
    var a, bs := P.base[P.vars[i].1], Encode(4, v);
    var m1 := State(pc, m.temps, Write(m.mem, a, bs));
    var st1 := st[id := Some(v)];
    ReadBack(m.mem, a, bs);
    Decode32(v);
    assert MatchVar(P, st1, m1, id) by {
      assert MatchVar(P, st, m, id);
    }
    forall id2 | id2 in st1
      ensures MatchVar(P, st1, m1, id2)
    {
      if id2 != id {
        WriteOther(P, st, m, id, id2, bs);
      }
    }
  }

  // ----- runs -----

  lemma NoStep(P: Prog, m: State)
    ensures Steps(P.code, P.base, m, 0) == Status.Run(m)
  {
  }

  lemma OneStep(P: Prog, m: State, m1: State)
    requires Step(P.code, P.base, m) == Status.Run(m1)
    ensures Steps(P.code, P.base, m, 1) == Status.Run(m1)
  {
    assert Steps(P.code, P.base, m1, 0) == Status.Run(m1);
  }

  lemma Chain(P: Prog, m: State, j: nat, m1: State, k: nat, m2: State)
    requires Steps(P.code, P.base, m, j) == Status.Run(m1)
    requires Steps(P.code, P.base, m1, k) == Status.Run(m2)
    ensures Steps(P.code, P.base, m, j + k) == Status.Run(m2)
  {
    StepsAdd(P.code, P.base, m, j, k);
  }

  lemma FindUnique(code: seq<Instr>, l: nat, p: nat)
    requires UniqueLabels(code) && p < |code| && code[p] == Label(l)
    ensures Find(code, l) == p
  {
  }
}
