/** The main theorems about lowering: the emitted code has exactly the behaviours of the source. */
module Lowering {
  import opened Wrappers
  import opened Bits
  import opened Ast
  import opened Ir
  import opened IrGen
  import opened Semantics
  import opened Simulation
  import opened Switches
  import opened Labels
  import opened Functions
  import opened LowerStmt

  /** Regions for the declarations of a function: in memory, and not overlapping. */
  predicate Regions(o: Out, base: seq<int>, mem: Mem) {
    && o.nt <= |base|
    && (forall i :: 0 <= i < |o.vars| && o.vars[i].1 < |base| ==> InBounds(mem, base[o.vars[i].1], 4))
    && (forall i, j :: 0 <= i < j < |o.vars| && o.vars[i].1 < |base| && o.vars[j].1 < |base| ==>
          Disjoint4(base[o.vars[i].1], base[o.vars[j].1]))
  }

  function Compiled(body: Stmt, base: seq<int>): Prog {
    Prog(GenFunc(body).code, base, GenFunc(body).vars)
  }

  lemma FuncGood(body: Stmt, base: seq<int>, mem: Mem)
    requires Valid(body) && Regions(GenFunc(body), base, mem)
    ensures GoodProg(Compiled(body, base))
  {
    var P := Compiled(body, base);
    ValidLabelled(body);
    LabelsUnique(body);
    FuncSound(body);
    forall i, j | 0 <= i < j < |P.vars|
      ensures P.vars[i].0 != P.vars[j].0
    {
      assert Ids(P.vars)[i] != Ids(P.vars)[j];
    }
  }

  lemma FuncLands(body: Stmt, base: seq<int>)
    requires WellLabelled(body) && Placed(Compiled(body, base), GenFunc(body))
    ensures Lands(Compiled(body, base), FuncEnv(body))
  {
    hide WellLabelled, GenFunc, FuncEnv;
    var P, env := Compiled(body, base), FuncEnv(body);
    forall i | 0 <= i < |env.gotos|
      ensures Find(P.code, env.gotos[i].1) < |P.code|
    {
      GotoEmitted(body, env.gotos[i].1);
      EmittedFound(P, GenFunc(body), env.gotos[i].1);
    }
    assert env.brk == 0 && env.cont == 0 by { NoTargets(body); }
  }

  lemma NoTargets(body: Stmt)
    ensures FuncEnv(body).brk == 0 && FuncEnv(body).cont == 0
  {
  }

  lemma FuncStatic(body: Stmt, base: seq<int>, mem: Mem)
    requires Valid(body) && Regions(GenFunc(body), base, mem)
    ensures Static(Compiled(body, base), FuncEnv(body), [], FuncStart(body), body, [])
  {
    hide Regions, GoodProg, Lands, Sound, WellLabelled, GenStmt, Tables;
    var P, o := Compiled(body, base), FuncStart(body);
    FuncGood(body, base, mem);
    ValidLabelled(body);
    FuncIs(body);
    FuncTables(body);
    FuncSound(body);
    SoundPlaced(body, base);
    FuncLands(body, base);
    assert WellFormed(o);
    PlacedBefore(P, o, GenFunc(body));
  }

  lemma SoundPlaced(body: Stmt, base: seq<int>)
    requires Sound(GenFunc(body))
    ensures Placed(Compiled(body, base), GenFunc(body))
  {
  }

  /** How the machine, started at `m`, shows a behaviour of the source. */
  ghost predicate Shows(P: Prog, fuel: nat, b: Behaviour, m: State, k: nat) {
    match b
    case Finishes(v, st) =>
      var r := Steps(P.code, P.base, m, k);
      r.Halt? && r.ret == v && MatchStore(P, st, r.last)
    case RunsOn => k >= fuel && Steps(P.code, P.base, m, k).Run?
    case GoesWrong => true
  }

  lemma {:induction false} BodyOk(body: Stmt, base: seq<int>, mem: Mem, fuel: nat, mode: Mode, st: Store, m: State)
    returns (k: nat)
    requires Valid(body) && Regions(GenFunc(body), base, mem)
    requires mode.Seek? ==> Has(body, mode.t)
    requires Enters(Compiled(body, base), FuncEnv(body), FuncStart(body), mode, st, m)
    ensures Shows(Compiled(body, base), fuel, ExecBody(fuel, mode, body, st), m, k)
    decreases fuel
  {
    hide Static, Regions, Enters, Valid, MatchStore, GenFunc, FuncEnv, FuncStart, Exec, Steps, MatchScope, GenStmt, Has,
         ScopeAfter, Find;
    var P, env, o := Compiled(body, base), FuncEnv(body), FuncStart(body);
    FuncStatic(body, base, mem);
    var m1;
    k, m1 := LowerStmtOk(P, env, [], o, body, [], fuel, mode, st, m);
    var r := Exec(fuel, mode, body, [], st);
    if r.Normal? {
      FallsOff(body, base, m, k, m1);
      k := k + 1;
    } else if r.Jumped? && Has(body, LabelT(r.name)) {
      GotoKnown(body, r.name);
      if fuel > 0 {
        EntersLabel(P, env, o, r.name, r.st, m1);
        var k2 := BodyOk(body, base, mem, fuel - 1, Seek(LabelT(r.name)), r.st, m1);
        ChainAny(P, m, k, m1, k2);
        k := k + k2;
      }
    }
  }

  /** Control that reaches the end of the code halts without a value, where it stands. */
  lemma FallsOff(body: Stmt, base: seq<int>, m: State, k: nat, m1: State)
    requires var P := Compiled(body, base); Steps(P.code, P.base, m, k) == Status.Run(m1)
    requires m1.pc == |GenStmt(FuncEnv(body), [], FuncStart(body), body).0.code|
    ensures var P := Compiled(body, base); Steps(P.code, P.base, m, k + 1) == Halt(None, m1)
  {
    var P := Compiled(body, base);
    FuncIs(body);
    assert Step(P.code, P.base, m1) == Halt(None, m1);
    assert Steps(P.code, P.base, m1, 1) == Halt(None, m1);
    ChainAny(P, m, k, m1, 1);
  }

  lemma GotoKnown(body: Stmt, x: string)
    requires Valid(body) && Has(body, LabelT(x))
    ensures Lookup(FuncEnv(body).gotos, x).Some?
  {
    HasLabel(body, x);
    CollectsLabels(body, x);
  }

  lemma EntersLabel(P: Prog, env: Env, o: Out, x: string, st: Store, m: State)
    requires Lookup(env.gotos, x).Some? && AtLabel(P, st, m, Lookup(env.gotos, x).value)
    ensures Enters(P, env, o, Seek(LabelT(x)), st, m)
  {
  }

  function Boot(mem: Mem): State {
    State(0, map[], mem)
  }

  /** The machine at the start of a function, whose labels' table is not in the code. */
  lemma BootEnters(body: Stmt, base: seq<int>, mem: Mem)
    requires Valid(body) && Regions(GenFunc(body), base, mem)
    ensures Enters(Compiled(body, base), FuncEnv(body), FuncStart(body), Mode.Run, map[], Boot(mem))
  {
    FuncSound(body);
  }

  /**
   Lowering preserves meaning, for every valid function and every run: if the source finishes
   with a result the emitted code halts with it and with the variables' values; if the source is still running after `fuel`
   loop iterations and jumps, the code runs for at least `fuel` steps.
   */
  lemma LoweringPreserves(body: Stmt, base: seq<int>, mem: Mem, fuel: nat) returns (k: nat)
    requires Valid(body) && Regions(GenFunc(body), base, mem)
    ensures Shows(Compiled(body, base), fuel, ExecBody(fuel, Mode.Run, body, map[]), Boot(mem), k)
  {
    BootEnters(body, base, mem);
    k := BodyOk(body, base, mem, fuel, Mode.Run, map[], Boot(mem));
  }

  ghost predicate SourceFinishes(body: Stmt, v: Option<int>) {
    exists fuel: nat :: SourceEnds(body, fuel) && ExecBody(fuel, Mode.Run, body, map[]).ret == v
  }

  predicate SourceEnds(body: Stmt, fuel: nat) {
    ExecBody(fuel, Mode.Run, body, map[]).Finishes?
  }

  ghost predicate NeverWrong(body: Stmt) {
    forall fuel: nat :: ExecBody(fuel, Mode.Run, body, map[]) != GoesWrong
  }

  ghost predicate CodeHalts(code: seq<Instr>, base: seq<int>, mem: Mem, v: Option<int>) {
    exists k: nat :: CodeEnds(code, base, mem, k) && Steps(code, base, Boot(mem), k).ret == v
  }

  predicate CodeEnds(code: seq<Instr>, base: seq<int>, mem: Mem, k: nat) {
    Steps(code, base, Boot(mem), k).Halt?
  }

  /** However long each side is run, the final memory holds the values of the final store. */
  lemma SameStore(body: Stmt, base: seq<int>, mem: Mem, fuel: nat, j: nat)
    requires Valid(body) && Regions(GenFunc(body), base, mem)
    requires SourceEnds(body, fuel) && CodeEnds(GenFunc(body).code, base, mem, j)
    ensures var b, r := ExecBody(fuel, Mode.Run, body, map[]), Steps(GenFunc(body).code, base, Boot(mem), j);
            r.ret == b.ret && MatchStore(Compiled(body, base), b.st, r.last)
  {
    hide Valid, Regions, GenFunc, MatchStore, ExecBody, Steps;
    var k := LoweringPreserves(body, base, mem, fuel);
    if j <= k {
      StoppedStays(GenFunc(body).code, base, Boot(mem), j, k);
    } else {
      StoppedStays(GenFunc(body).code, base, Boot(mem), k, j);
    }
  }

  /**
   For a function whose source never goes wrong the two agree in both directions: the code halts
   with `v` exactly when the source finishes with `v`, and so runs forever exactly when it does; and
   the final memory holds the values of the source's variables.
   */
  lemma LoweringAgrees(body: Stmt, base: seq<int>, mem: Mem, v: Option<int>)
    requires Valid(body) && Regions(GenFunc(body), base, mem) && NeverWrong(body)
    ensures SourceFinishes(body, v) <==> CodeHalts(GenFunc(body).code, base, mem, v)
    ensures forall fuel: nat, k: nat :: SourceEnds(body, fuel) && CodeEnds(GenFunc(body).code, base, mem, k) ==>
              MatchStore(Compiled(body, base), ExecBody(fuel, Mode.Run, body, map[]).st,
                         Steps(GenFunc(body).code, base, Boot(mem), k).last)
  {
    hide Valid, Regions, GenFunc, MatchStore, ExecBody, Steps;
    var code := GenFunc(body).code;
    if SourceFinishes(body, v) {
      var fuel: nat :| SourceEnds(body, fuel) && ExecBody(fuel, Mode.Run, body, map[]).ret == v;
      var k := LoweringPreserves(body, base, mem, fuel);
      assert CodeEnds(code, base, mem, k);
    }
    if CodeHalts(code, base, mem, v) {
      var j: nat :| CodeEnds(code, base, mem, j) && Steps(code, base, Boot(mem), j).ret == v;
      var k := LoweringPreserves(body, base, mem, j);
      if ExecBody(j, Mode.Run, body, map[]).RunsOn? {
        RunningBefore(code, base, Boot(mem), j, k);
      }
      assert SourceEnds(body, j);
      SameStore(body, base, mem, j, j);
    }
    forall fuel: nat, k: nat | SourceEnds(body, fuel) && CodeEnds(code, base, mem, k)
      ensures MatchStore(Compiled(body, base), ExecBody(fuel, Mode.Run, body, map[]).st,
                         Steps(code, base, Boot(mem), k).last)
    {
      SameStore(body, base, mem, fuel, k);
    }
  }
}
