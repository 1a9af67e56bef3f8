/**
 The whole path from source to processor: lowering, frame allocation and instruction selection
 composed. The function takes no parameters and returns `int`.
 */
module EndToEnd {
  import opened Wrappers
  import opened Bits
  import opened Ast
  import opened Ir
  import opened X86
  import opened Codegen
  import opened RegAlloc
  import opened Functions
  import opened Frame
  import Semantics
  import Lowering
  import IrGen
  import Simulation
  import IrGenerator

  const INT := Scalar(4, true)

  function FuncCode(body: Stmt): seq<Instr> {
    IrGen.GenFunc(body).code
  }

  function FuncTemps(body: Stmt): nat {
    IrGen.GenFunc(body).nt
  }

  function FuncText(body: Stmt, ra: Layout): seq<Asm> {
    Text(ra, INT, FuncCode(body))
  }

  /** The layout is what the allocator computes, and the frame size is a C `int`. */
  predicate LaidOut(body: Stmt, ra: Layout) {
    && Allocated(FuncCode(body), FuncTemps(body), ra.slot, ra.off, ra.frameSize)
    && Fits(RegAlloc.Regions(FuncCode(body)), 8 * FuncTemps(body))
  }

  // ----- the regions of a generated function -----

  lemma {:induction false} RegionsSnoc(code: seq<Instr>, i: Instr)
    ensures RegAlloc.Regions(code + [i]) == RegAlloc.Regions(code) + if i.Alloca? then [RegionOf(i)] else []
  {
    if code == [] {
      assert code + [i] == [i] && [i][1..] == [];
    } else {
      RegionsSnoc(code[1..], i);
      assert (code + [i])[1..] == code[1..] + [i];
    }
  }

  /** Regions and the destinations of the allocas are listed in the same order. */
  lemma {:induction false} RegionsAre(code: seq<Instr>)
    requires forall i :: 0 <= i < |code| ==> Plain(code[i])
    ensures |RegAlloc.Regions(code)| == |AllocaDsts(code)|
    ensures forall k :: 0 <= k < |AllocaDsts(code)| ==> RegAlloc.Regions(code)[k] == Region(AllocaDsts(code)[k], 4, 4)
  {
    if code != [] {
      var n := |code| - 1;
      RegionsAre(code[..n]);
      RegionsSnoc(code[..n], code[n]);
      assert code[..n] + [code[n]] == code;
    }
  }

  lemma FuncRegions(body: Stmt)
    requires Functions.Valid(body)
    ensures var o, rs := IrGen.GenFunc(body), RegAlloc.Regions(FuncCode(body));
            && |rs| == |o.vars| && Requests(rs) && o.nt >= 1
            && (forall k :: 0 <= k < |rs| ==> rs[k] == Region(o.vars[k].1, 4, 4) && rs[k].temp < o.nt)
            && (forall j, k :: 0 <= j < k < |rs| ==> rs[j].temp != rs[k].temp)
  {
    FuncSound(body);
    RegionsAre(FuncCode(body));
  }

  /** The activation of a generated function meets the conditions of the frame refinement. */
  lemma FuncAct(body: Stmt, ra: Layout, c: Cpu)
    requires Functions.Valid(body) && LaidOut(body, ra)
    requires ra.frameSize >= 0 && Called(c, ra.frameSize)
    ensures ra.frameSize >= 8 * FuncTemps(body)
    ensures GoodAct(Activation(FuncCode(body), FuncTemps(body), ra, INT, c))
  {
    hide IrGen.GenFunc, RegAlloc.Regions, Depth, AlignUp;
    var F := Activation(FuncCode(body), FuncTemps(body), ra, INT, c);
    FuncSound(body);
    FuncRegions(body);
    FrameCovers(RegAlloc.Regions(F.code), F.n);
    forall t | 0 <= t < |ra.off|
      ensures -ra.frameSize <= ra.off[t] <= 0
    {
      OffsetsBounded(RegAlloc.Regions(F.code), F.n, ra.off, t);
    }
    forall i | 0 <= i < |F.code|
      ensures Uses(F.code[i], F.n)
    {
      assert InstrBelow(F.code[i], F.n);
    }
  }

  lemma FrameCovers(rs: seq<Region>, n: nat)
    requires Requests(rs) && Fits(rs, 8 * n)
    ensures FrameSize(rs, 8 * n) >= 8 * n
  {
    hide AlignUp;
    DepthGrows(rs, 8 * n, 0, |rs|);
    assert Depth(rs, 8 * n, |rs|) < 0x7FFF_FFF0;
    AlignSmall(Depth(rs, 8 * n, |rs|), 16);
  }

  /** Every entry of the offset table is 0 or a region's offset. */
  lemma OffsetsBounded(rs: seq<Region>, n: nat, off: seq<int>, t: nat)
    requires Requests(rs) && Fits(rs, 8 * n) && Recorded(rs, n, |rs|, off) && t <= n
    requires forall j, k :: 0 <= j < k < |rs| ==> rs[j].temp != rs[k].temp
    ensures -FrameSize(rs, 8 * n) <= off[t] <= 0
  {
    hide Depth, AlignUp, FrameSize, Offset;
    FrameLayout(rs, n);
    if k :| 0 <= k < |rs| && rs[k].temp == t {
      assert off[t] == Offset(rs, 8 * n, k);
    }
  }

  /** The frame is the memory that lowering asked for: a region for each declaration, none overlapping. */
  lemma RegionsInFrame(body: Stmt, ra: Layout, c: Cpu)
    requires Functions.Valid(body) && LaidOut(body, ra)
    requires ra.frameSize >= 0 && Called(c, ra.frameSize)
    ensures var F := Activation(FuncCode(body), FuncTemps(body), ra, INT, c);
            Lowering.Regions(IrGen.GenFunc(body), F.base, RegionBytes(F, c.mem))
    ensures forall k :: 0 <= k < |RegAlloc.Regions(FuncCode(body))| ==>
              RegAlloc.Regions(FuncCode(body))[k].temp < |ra.off|
              && ra.off[RegAlloc.Regions(FuncCode(body))[k].temp]
                 == Offset(RegAlloc.Regions(FuncCode(body)), 8 * FuncTemps(body), k)
  {
    hide IrGen.GenFunc, RegAlloc.Regions, Depth, AlignUp, FrameSize, Offset;
    var o, rs := IrGen.GenFunc(body), RegAlloc.Regions(FuncCode(body));
    var F := Activation(FuncCode(body), o.nt, ra, INT, c);
    FuncRegions(body);
    FrameLayout(rs, o.nt);
    forall k | 0 <= k < |rs|
      ensures ra.off[rs[k].temp] == Offset(rs, 8 * o.nt, k)
      ensures InBounds(RegionBytes(F, c.mem), F.base[o.vars[k].1], 4)
    {
      assert rs[k] == Region(o.vars[k].1, 4, 4);
      assert ra.off[rs[k].temp] == Offset(rs, 8 * o.nt, k);
      BelowSlots(rs, o.nt, k);
      var a := F.base[o.vars[k].1];
      assert a == F.rbp + Offset(rs, 8 * o.nt, k);
      assert forall x :: a <= x < a + 4 ==> x in c.mem;
    }
    forall j, k | 0 <= j < k < |o.vars|
      ensures Simulation.Disjoint4(F.base[o.vars[j].1], F.base[o.vars[k].1])
    {
      assert rs[j] == Region(o.vars[j].1, 4, 4) && rs[k] == Region(o.vars[k].1, 4, 4);
      assert Apart(Offset(rs, 8 * o.nt, j), rs[j].size, Offset(rs, 8 * o.nt, k), rs[k].size);
    }
  }

  lemma BelowSlots(rs: seq<Region>, n: nat, k: nat)
    requires Requests(rs) && Fits(rs, 8 * n) && k < |rs|
    ensures -FrameSize(rs, 8 * n) <= Offset(rs, 8 * n, k) && Offset(rs, 8 * n, k) + rs[k].size <= -8 * n
  {
    hide AlignUp;
    FrameLayout(rs, n);
    DepthGrows(rs, 8 * n, 0, k);
    DepthGrows(rs, 8 * n, k, k + 1);
  }

  /** Every local of a function called with the stack aligned as the ABI requires is aligned. */
  lemma LocalsAligned(body: Stmt, ra: Layout, c: Cpu, k: nat)
    requires Functions.Valid(body) && LaidOut(body, ra)
    requires ra.frameSize >= 0 && Called(c, ra.frameSize) && (c.rsp + 8) % 16 == 0
    requires k < |RegAlloc.Regions(FuncCode(body))|
    ensures RegAlloc.Regions(FuncCode(body))[k].temp < |ra.off|
    ensures (c.rsp - 8 + ra.off[RegAlloc.Regions(FuncCode(body))[k].temp]) % 4 == 0
  {
    hide IrGen.GenFunc, RegAlloc.Regions, Depth, AlignUp, FrameSize, Offset;
    var rs := RegAlloc.Regions(FuncCode(body));
    FuncRegions(body);
    RegionsInFrame(body, ra, c);
    RegionAligned(rs, FuncTemps(body), k, c.rsp - 8);
  }

  // ----- the theorems -----

  lemma {:induction false} NoZexts(F: Act, m: State, k: nat)
    requires forall i :: 0 <= i < |F.code| ==> !F.code[i].Zext?
    ensures ZextsOk(F, m, k)
    decreases k
  {
    hide Step;
    if k > 0 && m.pc < |F.code| && Step(F.code, F.base, m).Run? {
      NoZexts(F, Step(F.code, F.base, m).s, k - 1);
    }
  }

  /** How the processor, at the first instruction of the function, shows a behaviour of the source. */
  ghost predicate CpuShows(text: seq<Asm>, ra: Layout, fuel: nat, b: Semantics.Behaviour, c: Cpu, k: nat, c1: Cpu)
    requires ra.frameSize >= 0 && Called(c, ra.frameSize)
  {
    match b
    case Finishes(v, _) =>
      && CpuSteps(text, c, k) == Returned(c1, DecodeS(Read(c.mem, c.rsp, 8)))
      && (v.Some? ==> c1.rax == v.value)
      && c1.rbp == c.rbp && c1.rsp == c.rsp + 8
      && (forall a :: a in c.mem && !(c.rsp - 8 - ra.frameSize <= a < c.rsp) ==> a in c1.mem && c1.mem[a] == c.mem[a])
    case RunsOn => k >= fuel && CpuSteps(text, c, k).Run?
    case GoesWrong => true
  }

  lemma FuncNoZexts(body: Stmt)
    requires Functions.Valid(body)
    ensures forall i :: 0 <= i < |FuncCode(body)| ==> !FuncCode(body)[i].Zext?
  {
    FuncSound(body);
    forall i | 0 <= i < |FuncCode(body)|
      ensures !FuncCode(body)[i].Zext?
    {
      assert Plain(FuncCode(body)[i]);
    }
  }

  lemma ReturnsInt(v: int)
    requires Int32(v)
    ensures Returns(INT, v) == v
  {
    Decode32(v);
  }

  /**
   Compilation preserves meaning, for every valid function and every run: if the source finishes
   the processor returns to the caller with the value in %rax, the caller's %rbp and %rsp, and no
   byte outside the frame changed; if the source runs on, so does the processor.
   */
  lemma CompilePreserves(body: Stmt, ra: Layout, c: Cpu, fuel: nat) returns (k: nat, c1: Cpu)
    requires Functions.Valid(body) && LaidOut(body, ra)
    requires ra.frameSize >= 0 && Called(c, ra.frameSize)
    ensures CpuShows(FuncText(body, ra), ra, fuel, Semantics.ExecBody(fuel, Semantics.Mode.Run, body, map[]), c, k, c1)
  {
    hide IrGen.GenFunc, Match, GoodAct, Data, Semantics.ExecBody, Steps, Read, DecodeS, InBounds, Functions.Valid,
         LaidOut, CpuSteps, Text, RegionBytes, Returns, Sound, Lowering.Regions, Ids;
    var F := Activation(FuncCode(body), FuncTemps(body), ra, INT, c);
    var b := Semantics.ExecBody(fuel, Semantics.Mode.Run, body, map[]);
    FuncAct(body, ra, c);
    RegionsInFrame(body, ra, c);
    FuncNoZexts(body);
    var mem := RegionBytes(F, c.mem);
    var n := Lowering.LoweringPreserves(body, F.base, mem, fuel);
    var m := Lowering.Boot(mem);
    var c0 := PrologueOk(F.code, F.n, ra, INT, c);
    NoZexts(F, m, n);
    k, c1 := RunOk(F, m, c0, n);
    if b.Finishes? {
      Semantics.BodyInt(fuel, Semantics.Mode.Run, body, map[]);
      if b.ret.Some? { ReturnsInt(b.ret.value); }
      PrologueThen(AsmOf(F), c, c0, k);
      k := k + 3;
    } else if b.RunsOn? {
      PrologueThen(AsmOf(F), c, c0, k);
      k := k + 3;
    }
  }

  lemma PrologueThen(text: seq<Asm>, c: Cpu, c0: Cpu, k: nat)
    requires CpuSteps(text, c, 3) == X86.Run(c0)
    ensures CpuSteps(text, c, k + 3) == CpuSteps(text, c0, k)
  {
    CpuAdd(text, c, 3, k);
  }

  /** The source, given `fuel`, comes to its end. */
  predicate Finishing(body: Stmt, fuel: nat) {
    Semantics.ExecBody(fuel, Semantics.Mode.Run, body, map[]).Finishes?
  }

  /** The processor, given `j` steps, is back in the caller. */
  predicate Returning(text: seq<Asm>, c: Cpu, j: nat) {
    CpuSteps(text, c, j).Returned?
  }

  /**
   For a function whose source never goes wrong, the processor never faults; it returns exactly
   when the source finishes; and then %rax holds the source's result.
   */
  lemma CompiledAgrees(body: Stmt, ra: Layout, c: Cpu)
    requires Functions.Valid(body) && LaidOut(body, ra) && Lowering.NeverWrong(body)
    requires ra.frameSize >= 0 && Called(c, ra.frameSize)
    ensures forall j: nat :: CpuSteps(FuncText(body, ra), c, j) != Fault
    ensures (exists j: nat :: Returning(FuncText(body, ra), c, j)) <==> (exists fuel: nat :: Finishing(body, fuel))
    ensures forall j: nat, fuel: nat :: Returning(FuncText(body, ra), c, j) && Finishing(body, fuel) ==>
              var v := Semantics.ExecBody(fuel, Semantics.Mode.Run, body, map[]).ret;
              v.Some? ==> CpuSteps(FuncText(body, ra), c, j).c.rax == v.value
  {
    hide Functions.Valid, LaidOut, Called, Text;
    var text := FuncText(body, ra);
    forall j: nat
      ensures CpuSteps(text, c, j) != Fault
      ensures Returning(text, c, j) ==> Finishing(body, j)
    {
      NeverFaults(body, ra, c, j);
    }
    forall j: nat, fuel: nat | Returning(text, c, j) && Finishing(body, fuel)
      ensures var v := Semantics.ExecBody(fuel, Semantics.Mode.Run, body, map[]).ret;
              v.Some? ==> CpuSteps(text, c, j).c.rax == v.value
    {
      var k := ReturnsResult(body, ra, c, fuel, j);
    }
    if fuel: nat :| Finishing(body, fuel) {
      var k := ReturnsResult(body, ra, c, fuel, 0);
      assert Returning(text, c, k);
    }
  }

  lemma NeverFaults(body: Stmt, ra: Layout, c: Cpu, j: nat)
    requires Functions.Valid(body) && LaidOut(body, ra) && Lowering.NeverWrong(body)
    requires ra.frameSize >= 0 && Called(c, ra.frameSize)
    ensures CpuSteps(FuncText(body, ra), c, j) != Fault
    ensures Returning(FuncText(body, ra), c, j) ==> Finishing(body, j)
  {
    hide Functions.Valid, LaidOut, Called, Text, CpuSteps, Semantics.ExecBody;
    var k, c1 := CompilePreserves(body, ra, c, j);
    if Semantics.ExecBody(j, Semantics.Mode.Run, body, map[]).RunsOn? {
      CpuRunningBefore(FuncText(body, ra), c, j, k);
    } else {
      SameEnd(FuncText(body, ra), c, j, k);
    }
  }

  /** Wherever the processor returns it is with the value the source finishes with. */
  lemma ReturnsResult(body: Stmt, ra: Layout, c: Cpu, fuel: nat, j: nat) returns (k: nat)
    requires Functions.Valid(body) && LaidOut(body, ra) && Finishing(body, fuel)
    requires ra.frameSize >= 0 && Called(c, ra.frameSize)
    ensures Returning(FuncText(body, ra), c, k)
    ensures var v := Semantics.ExecBody(fuel, Semantics.Mode.Run, body, map[]).ret;
            Returning(FuncText(body, ra), c, j) && v.Some? ==> CpuSteps(FuncText(body, ra), c, j).c.rax == v.value
  {
    hide Functions.Valid, LaidOut, Called, Text, CpuSteps, Semantics.ExecBody;
    var c1;
    k, c1 := CompilePreserves(body, ra, c, fuel);
    SameEnd(FuncText(body, ra), c, j, k);
  }

  /** Two stopped runs stopped the same way. */
  lemma SameEnd(text: seq<Asm>, c: Cpu, j: nat, k: nat)
    requires !CpuSteps(text, c, k).Run?
    ensures CpuSteps(text, c, j).Run? || CpuSteps(text, c, j) == CpuSteps(text, c, k)
  {
    if !CpuSteps(text, c, j).Run? {
      if j <= k {
        CpuStoppedStays(text, c, j, k);
      } else {
        CpuStoppedStays(text, c, k, j);
      }
    }
  }

  /** The stateful pipeline: a new generator, then the allocator and the writer. */
  method CompileFunc(body: Stmt) returns (text: seq<Asm>, ra: Layout)
    requires Functions.Valid(body)
    ensures text == FuncText(body, ra)
    ensures Allocated(FuncCode(body), FuncTemps(body), ra.slot, ra.off, ra.frameSize)
  {
    hide IrGen.GenFunc, Allocated, Text;
    var g := new IrGenerator.Generator();
    g.GenFunc(body);
    assert g.Output() == IrGen.GenFunc(body);
    assert g.instrs == FuncCode(body) && g.nextTemp == FuncTemps(body);
    AllocasBelow(body);
    var w := new Writer();
    ra := w.CodegenFunc(INT, g.instrs, g.nextTemp);
    text := w.text;
  }

  lemma AllocasBelow(body: Stmt)
    requires Functions.Valid(body)
    ensures forall i :: 0 <= i < |FuncCode(body)| && FuncCode(body)[i].Alloca? ==> FuncCode(body)[i].dst < FuncTemps(body)
  {
    FuncSound(body);
    forall i | 0 <= i < |FuncCode(body)| && FuncCode(body)[i].Alloca?
      ensures FuncCode(body)[i].dst < FuncTemps(body)
    {
      assert InstrBelow(FuncCode(body)[i], FuncTemps(body));
    }
  }
}
