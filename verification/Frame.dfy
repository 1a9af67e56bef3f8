/**
 The frame refinement: the IR machine, with its temporaries and separate regions, is simulated
 step by step by the processor running the selected text over one flat memory.
 */
module Frame {
  import opened Wrappers
  import opened Bits
  import opened Ir
  import opened X86
  import opened Codegen
  import opened RegAlloc
  import opened Functions
  import IrGen

  /**
   One activation of a function: its code, its layout, where its frame stands, and the memory it
   was called with.
   */
  datatype Act = Act(code: seq<Instr>, n: nat, ra: Layout, ret: Scalar, rbp: int, base: seq<int>,
                     callerRbp: int, retAddr: int, outer: Mem)

  function AsmOf(F: Act): seq<Asm> {
    Text(F.ra, F.ret, F.code)
  }

  /** Temporaries below `n`, slots as allocated, and addresses that are 64-bit values. */
  predicate GoodAct(F: Act) {
    && F.n >= 1
    && (forall i :: 0 <= i < |F.code| ==> Uses(F.code[i], F.n))
    && Slots(F.n, F.ra.slot)
    && |F.ra.off| >= F.n && |F.base| == |F.ra.off|
    && (forall t :: 0 <= t < |F.base| ==> F.base[t] == F.rbp + F.ra.off[t] && Int64(F.base[t]))
    && F.ra.frameSize >= 8 * F.n
    && Int64(F.rbp) && Int64(F.rbp - F.ra.frameSize)
  }

  predicate Uses(i: Instr, n: nat) {
    && (Dst(i).Some? ==> 1 <= Dst(i).value < n)
    && forall k :: 0 <= k < |Operands(i)| ==> IrGen.Below(Operands(i)[k], n)
  }

  // ----- where the text of an instruction stands -----

  function Start(F: Act, p: nat): nat
    requires p <= |F.code|
  {
    3 + |Blocks(F.ra, F.ret, F.code, p)|
  }

  function Block(F: Act, p: nat): seq<Asm>
    requires p < |F.code|
  {
    Select(F.ra, F.ret, F.code[p])
  }

  lemma {:induction false} BlocksPrefix(F: Act, j: nat, k: nat)
    requires j <= k <= |F.code|
    ensures Blocks(F.ra, F.ret, F.code, j) <= Blocks(F.ra, F.ret, F.code, k)
    decreases k
  {
    hide Select;
    if j < k {
      BlocksPrefix(F, j, k - 1);
    }
  }

  lemma BlockAt(F: Act, p: nat)
    requires p < |F.code|
    ensures Start(F, p + 1) == Start(F, p) + |Block(F, p)| <= |AsmOf(F)|
    ensures forall j :: 0 <= j < |Block(F, p)| ==> AsmOf(F)[Start(F, p) + j] == Block(F, p)[j]
  {
    hide Select;
    BlocksPrefix(F, p + 1, |F.code|);
    var b0, b1, b := Blocks(F.ra, F.ret, F.code, p), Blocks(F.ra, F.ret, F.code, p + 1), Blocks(F.ra, F.ret, F.code, |F.code|);
    assert b1 == b0 + Block(F, p);
    forall j | 0 <= j < |Block(F, p)|
      ensures AsmOf(F)[Start(F, p) + j] == Block(F, p)[j]
    {
      assert b1[|b0| + j] == Block(F, p)[j];
      assert b[|b0| + j] == b1[|b0| + j];
    }
  }

  /** The epilogue that control falls into at the end of the code. */
  lemma EpilogueAt(F: Act)
    ensures var e := Start(F, |F.code|);
            e + 2 == |AsmOf(F)| && AsmOf(F)[e] == Leave && AsmOf(F)[e + 1] == Retq
  {
    hide Select;
  }

  /** Only the text of `Label(l)` contains `Lbl(l)`. */
  lemma LabelsKept(ra: Layout, ret: Scalar, i: Instr, l: nat)
    ensures Lbl(l) in Select(ra, ret, i) <==> i == Label(l)
    ensures i == Label(l) ==> Select(ra, ret, i) == [Lbl(l)]
    ensures |Select(ra, ret, i)| >= 1
  {
  }

  /** Nothing but the prologue precedes the first block, and it has no label. */
  lemma {:induction false} SeekSkips(text: seq<Asm>, l: nat, from: nat, to: nat)
    requires from <= to <= |text|
    requires forall j :: from <= j < to ==> text[j] != Lbl(l)
    ensures SeekFrom(text, l, from) == SeekFrom(text, l, to)
    decreases |text| - from
  {
    if from < to {
      SeekSkips(text, l, from + 1, to);
    }
  }

  lemma {:induction false} SeekBlocks(F: Act, l: nat, p: nat)
    requires p <= |F.code| && FindFrom(F.code, l, p) < |F.code|
    ensures Start(F, p) <= |AsmOf(F)|
    ensures SeekFrom(AsmOf(F), l, Start(F, p)) == Start(F, FindFrom(F.code, l, p)) < |AsmOf(F)|
    decreases |F.code| - p
  {
    hide Select, Blocks, Text;
    BlockAt(F, p);
    LabelsKept(F.ra, F.ret, F.code[p], l);
    var b := Block(F, p);
    if F.code[p] == Label(l) {
      assert AsmOf(F)[Start(F, p) + 0] == b[0];
    } else {
      assert forall j :: 0 <= j < |b| ==> b[j] != Lbl(l);
      forall j | Start(F, p) <= j < Start(F, p + 1)
        ensures AsmOf(F)[j] != Lbl(l)
      {
        assert AsmOf(F)[Start(F, p) + (j - Start(F, p))] == b[j - Start(F, p)];
      }
      SeekSkips(AsmOf(F), l, Start(F, p), Start(F, p + 1));
      SeekBlocks(F, l, p + 1);
    }
  }

  /** Assembler labels land where the IR's do. */
  lemma JumpLands(F: Act, l: nat)
    requires Find(F.code, l) < |F.code|
    ensures SeekFrom(AsmOf(F), l, 0) == Start(F, Find(F.code, l)) < |AsmOf(F)|
  {
    hide Select;
    SeekBlocks(F, l, 0);
    var p := Prologue(F.ra);
    assert AsmOf(F)[0] == p[0] && AsmOf(F)[1] == p[1] && AsmOf(F)[2] == p[2];
    SeekSkips(AsmOf(F), l, 0, 3);
  }

  // ----- the refinement relation -----

  /** The memory of the processor holds the temporaries in their slots and the regions below them. */
  predicate Data(F: Act, temps: map<nat, int>, mem: Mem, cmem: Mem)
    requires GoodAct(F)
  {
    && InBounds(cmem, F.rbp - F.ra.frameSize, F.ra.frameSize + 16)
    && (forall t :: t in temps ==> 1 <= t < F.n && DecodeS(Read(cmem, F.rbp - 8 * t, 8)) == temps[t])
    && (forall a :: a in mem ==> F.rbp - F.ra.frameSize <= a < F.rbp - 8 * F.n && cmem[a] == mem[a])
    && DecodeS(Read(cmem, F.rbp, 8)) == F.callerRbp
    && DecodeS(Read(cmem, F.rbp + 8, 8)) == F.retAddr
    && OutsideKept(F, cmem)
  }

  /** No byte outside the frame and the saved %rbp has changed since the call. */
  predicate OutsideKept(F: Act, cmem: Mem) {
    forall a :: a in F.outer && !(F.rbp - F.ra.frameSize <= a < F.rbp + 8) ==> a in cmem && cmem[a] == F.outer[a]
  }

  predicate Match(F: Act, m: State, c: Cpu) {
    && GoodAct(F)
    && m.pc <= |F.code| && c.pc == Start(F, m.pc)
    && c.rbp == F.rbp && c.rsp == F.rbp - F.ra.frameSize
    && Data(F, m.temps, m.mem, c.mem)
  }

  /** After `k` steps from `c0`, inside the block of instruction `p` with `j` of its steps done. */
  predicate Inside(F: Act, m: State, c0: Cpu, j: nat, c: Cpu) {
    && Match(F, m, c0) && m.pc < |F.code|
    && CpuSteps(AsmOf(F), c0, j) == X86.Run(c)
    && c.pc == Start(F, m.pc) + j && c.rbp == c0.rbp && c.rsp == c0.rsp && c.mem == c0.mem
  }

  /** Fetch: what stands at the current position of a block. */
  lemma Fetch(F: Act, m: State, c0: Cpu, j: nat, c: Cpu)
    requires Inside(F, m, c0, j, c) && j < |Block(F, m.pc)|
    ensures c.pc < |AsmOf(F)| && AsmOf(F)[c.pc] == Block(F, m.pc)[j]
    ensures CpuSteps(AsmOf(F), c0, j + 1) == Effect(AsmOf(F), Block(F, m.pc)[j], c)
  {
    hide Select, Text, Effect, GoodAct, Data;
    BlockAt(F, m.pc);
    assert AsmOf(F)[Start(F, m.pc) + j] == Block(F, m.pc)[j];
    Next(AsmOf(F), c0, j);
  }

  lemma Entered(F: Act, m: State, c0: Cpu)
    requires Match(F, m, c0) && m.pc < |F.code|
    ensures Inside(F, m, c0, 0, c0)
  {
  }

  /** The slot of a temporary lies in the frame and holds its value. */
  lemma SlotHolds(F: Act, temps: map<nat, int>, mem: Mem, cmem: Mem, t: nat)
    requires GoodAct(F) && Data(F, temps, mem, cmem) && t in temps
    ensures InBounds(cmem, F.rbp + At(F.ra.slot, t), 8)
    ensures DecodeS(Read(cmem, F.rbp + At(F.ra.slot, t), 8)) == temps[t] && Int64(temps[t])
  {
    assert At(F.ra.slot, t) == -8 * t;
    EightBytes(Read(cmem, F.rbp - 8 * t, 8));
  }

  /** A load of an operand into a register. */
  lemma LoadOk(F: Act, m: State, c0: Cpu, j: nat, c: Cpu, v: Operand, r: Reg, x: int) returns (c1: Cpu)
    requires Inside(F, m, c0, j, c) && j < |Block(F, m.pc)| && Block(F, m.pc)[j] == LoadReg(F.ra, v, r)
    requires Value(m, v) == Some(x)
    ensures c1 == Put(c, r, x) && Inside(F, m, c0, j + 1, c1) && Int64(x)
  {
    hide Select, Blocks, Text, Start, Data, GoodAct, Read, InBounds, CpuSteps;
    Fetch(F, m, c0, j, c);
    c1 := Put(c, r, x);
    if v.Temp? {
      SlotHolds(F, m.temps, m.mem, c.mem, v.id);
    }
  }

  lemma EightBytes(bs: seq<byte>)
    requires |bs| == 8
    ensures Int64(DecodeS(bs))
  {
    DecodeRange(bs);
    assert Pow256(4) == 0x1_0000_0000;
    assert Pow256(7) == 256 * 256 * 256 * Pow256(4);
  }

  /** An instruction between registers. */
  lemma RegisterOk(F: Act, m: State, c0: Cpu, j: nat, c: Cpu, a: Asm, c1: Cpu)
    requires Inside(F, m, c0, j, c) && j < |Block(F, m.pc)| && Block(F, m.pc)[j] == a
    requires Effect(AsmOf(F), a, c) == X86.Run(c1)
    requires c1.pc == c.pc + 1 && c1.rbp == c.rbp && c1.rsp == c.rsp && c1.mem == c.mem
    ensures Inside(F, m, c0, j + 1, c1)
  {
    hide Select, Blocks, Text, Effect, GoodAct, Data, Start;
    Fetch(F, m, c0, j, c);
  }

  /** Writing a slot sets that temporary and nothing else. */
  lemma DataSet(F: Act, temps: map<nat, int>, mem: Mem, cmem: Mem, t: nat, x: int)
    requires GoodAct(F) && Data(F, temps, mem, cmem) && 1 <= t < F.n && Int64(x)
    ensures Data(F, temps[t := x], mem, Write(cmem, F.rbp - 8 * t, Encode(8, x)))
  {
    hide Read, DecodeS, Encode;
    var a := F.rbp - 8 * t;
    var bs := Encode(8, x);
    var cmem1 := Write(cmem, a, bs);
    ReadBack(cmem, a, bs);
    Decode64(x);
    forall u | u in temps && u != t
      ensures DecodeS(Read(cmem1, F.rbp - 8 * u, 8)) == temps[u]
    {
      ReadElsewhere(cmem, a, bs, F.rbp - 8 * u, 8);
    }
    ReadElsewhere(cmem, a, bs, F.rbp, 8);
    ReadElsewhere(cmem, a, bs, F.rbp + 8, 8);
  }

  /** A store into a region changes the same bytes in both memories. */
  lemma DataWrite(F: Act, temps: map<nat, int>, mem: Mem, cmem: Mem, a: int, bs: seq<byte>)
    requires GoodAct(F) && Data(F, temps, mem, cmem) && |bs| >= 1 && InBounds(mem, a, |bs|)
    ensures Data(F, temps, Write(mem, a, bs), Write(cmem, a, bs))
  {
    hide Read, DecodeS;
    var cmem1 := Write(cmem, a, bs);
    assert a in mem && a + |bs| - 1 in mem;
    forall u | u in temps
      ensures DecodeS(Read(cmem1, F.rbp - 8 * u, 8)) == temps[u]
    {
      ReadElsewhere(cmem, a, bs, F.rbp - 8 * u, 8);
    }
    ReadElsewhere(cmem, a, bs, F.rbp, 8);
    ReadElsewhere(cmem, a, bs, F.rbp + 8, 8);
  }

  // ----- one IR step -----

  /** The value a caller sees in %rax. */
  function Returns(ret: Scalar, v: int): int {
    if Width(ret.size) < 8 then Extend(ret.signed, Encode(Width(ret.size), v)) else v
  }

  /** Back in the caller: its %rbp, its %rsp with the return address popped, its memory. */
  predicate HandsBack(F: Act, c: Cpu, v: Option<int>) {
    && c.rbp == F.callerRbp && c.rsp == F.rbp + 16
    && (v.Some? ==> c.rax == Returns(F.ret, v.value))
    && OutsideKept(F, c.mem)
  }

  /** The processor shows the status `r` of the IR machine after `k` steps. */
  predicate Shows(F: Act, r: Status, c0: Cpu, k: nat, c1: Cpu) {
    match r
    case Run(m1) => k >= 1 && CpuSteps(AsmOf(F), c0, k) == X86.Run(c1) && Match(F, m1, c1)
    case Halt(v, _) => CpuSteps(AsmOf(F), c0, k) == Returned(c1, F.retAddr) && HandsBack(F, c1, v)
    case Stuck => true
  }

  /** The last instruction of a block stores a register into the destination's slot. */
  lemma SetOk(F: Act, m: State, c0: Cpu, j: nat, c: Cpu, t: nat, r: Reg, x: int) returns (k: nat, c1: Cpu)
    requires Inside(F, m, c0, j, c) && |Block(F, m.pc)| == j + 1 && Block(F, m.pc)[j] == StoreReg(F.ra, t, r)
    requires Get(c, r) == x && Int64(x) && 1 <= t < F.n
    ensures Shows(F, Set(m, t, x), c0, k, c1)
  {
    hide Select, Blocks, Text, Start, CpuSteps, Write, Encode, Read, DecodeS;
    Fetch(F, m, c0, j, c);
    BlockAt(F, m.pc);
    assert At(F.ra.slot, t) == -8 * t;
    DataSet(F, m.temps, m.mem, c.mem, t, x);
    k, c1 := j + 1, c.(pc := c.pc + 1, mem := Write(c.mem, F.rbp - 8 * t, Encode(8, x)));
  }

  /** Control moves to the start of another block. */
  lemma MoveOk(F: Act, m: State, c0: Cpu, k: nat, c1: Cpu, p: nat)
    requires Match(F, m, c0) && k >= 1 && p <= |F.code|
    requires CpuSteps(AsmOf(F), c0, k) == X86.Run(c1)
    requires c1.pc == Start(F, p) && c1.rbp == c0.rbp && c1.rsp == c0.rsp && c1.mem == c0.mem
    ensures Shows(F, Status.Run(m.(pc := p)), c0, k, c1)
  {
  }

  predicate Ready(F: Act, m: State, c0: Cpu) {
    Match(F, m, c0) && m.pc < |F.code|
  }

  lemma UsesAt(F: Act, m: State, c0: Cpu)
    requires Ready(F, m, c0)
    ensures Uses(F.code[m.pc], F.n)
  {
  }

  lemma AllocaOk(F: Act, m: State, c0: Cpu) returns (k: nat, c1: Cpu)
    requires Ready(F, m, c0) && F.code[m.pc].Alloca?
    ensures Shows(F, Step(F.code, F.base, m), c0, k, c1)
  {
    hide Blocks, Text, Start, CpuSteps, Data;
    var i := F.code[m.pc];
    UsesAt(F, m, c0);
    Entered(F, m, c0);
    var c := Put(c0, RAX, F.base[i.dst]);
    RegisterOk(F, m, c0, 0, c0, Lea(At(F.ra.off, i.dst), RAX), c);
    k, c1 := SetOk(F, m, c0, 1, c, i.dst, RAX, F.base[i.dst]);
  }

  lemma RegionRead(F: Act, m: State, cmem: Mem, a: int, w: nat)
    requires GoodAct(F) && Data(F, m.temps, m.mem, cmem) && InBounds(m.mem, a, w)
    ensures InBounds(cmem, a, w) && Read(cmem, a, w) == Read(m.mem, a, w)
  {
    forall x | a <= x < a + w
      ensures x in cmem && cmem[x] == m.mem[x]
    {
      assert x in m.mem;
    }
  }

  lemma NarrowValue(w: nat, signed: bool, bs: seq<byte>)
    requires |bs| == w && (w == 1 || w == 2 || w == 4 || w == 8)
    ensures Int64(MemVal(w, signed, bs))
  {
    DecodeRange(bs);
    assert Pow256(1) == 256 && Pow256(2) == 256 * 256 && Pow256(4) == 0x1_0000_0000;
    if w == 8 {
      EightBytes(bs);
    }
  }

  lemma LoadInstrOk(F: Act, m: State, c0: Cpu) returns (k: nat, c1: Cpu)
    requires Ready(F, m, c0) && F.code[m.pc].Load?
    ensures Shows(F, Step(F.code, F.base, m), c0, k, c1)
  {
    hide Blocks, Text, Start, CpuSteps, Data, GoodAct, Read, InBounds, DecodeS, DecodeU;
    var i := F.code[m.pc];
    UsesAt(F, m, c0);
    Entered(F, m, c0);
    k, c1 := 0, c0;
    var a, w := Value(m, i.addr), Width(i.size);
    if a.Some? && InBounds(m.mem, a.value, w) {
      var c := LoadOk(F, m, c0, 0, c0, i.addr, RAX, a.value);
      RegionRead(F, m, c.mem, a.value, w);
      var x := MemVal(w, i.signed, Read(m.mem, a.value, w));
      NarrowValue(w, i.signed, Read(m.mem, a.value, w));
      RegisterOk(F, m, c0, 1, c, LoadMem(w, i.signed), Put(c, RDX, x));
      k, c1 := SetOk(F, m, c0, 2, Put(c, RDX, x), i.dst, RDX, x);
    }
  }

  lemma StoreInstrOk(F: Act, m: State, c0: Cpu) returns (k: nat, c1: Cpu)
    requires Ready(F, m, c0) && F.code[m.pc].Store?
    ensures Shows(F, Step(F.code, F.base, m), c0, k, c1)
  {
    hide Blocks, Text, Start, CpuSteps, Data, GoodAct, Read, Write, Encode;
    var i := F.code[m.pc];
    Entered(F, m, c0);
    k, c1 := 0, c0;
    var a, v, w := Value(m, i.addr), Value(m, i.src), Width(i.size);
    if a.Some? && v.Some? && InBounds(m.mem, a.value, w) {
      var ca := LoadOk(F, m, c0, 0, c0, i.addr, R10, a.value);
      var cb := LoadOk(F, m, c0, 1, ca, i.src, RAX, v.value);
      Fetch(F, m, c0, 2, cb);
      RegionRead(F, m, c0.mem, a.value, w);
      var bs := Encode(w, v.value);
      DataWrite(F, m.temps, m.mem, c0.mem, a.value, bs);
      BlockAt(F, m.pc);
      k, c1 := 3, cb.(pc := cb.pc + 1, mem := Write(c0.mem, a.value, bs));
    }
  }

  lemma CopyOk(F: Act, m: State, c0: Cpu) returns (k: nat, c1: Cpu)
    requires Ready(F, m, c0) && F.code[m.pc].Copy?
    ensures Shows(F, Step(F.code, F.base, m), c0, k, c1)
  {
    hide Inside, Match, Blocks, Text, Start, CpuSteps, Data, GoodAct;
    var i := F.code[m.pc];
    UsesAt(F, m, c0);
    Entered(F, m, c0);
    k, c1 := 0, c0;
    if Value(m, i.src).Some? {
      var x := Value(m, i.src).value;
      var c := LoadOk(F, m, c0, 0, c0, i.src, RAX, x);
      k, c1 := SetOk(F, m, c0, 1, c, i.dst, RAX, x);
    }
  }

  lemma UnOk(F: Act, m: State, c0: Cpu) returns (k: nat, c1: Cpu)
    requires Ready(F, m, c0) && F.code[m.pc].Un?
    ensures Shows(F, Step(F.code, F.base, m), c0, k, c1)
  {
    hide Inside, Match, Blocks, Text, Start, CpuSteps, Data, GoodAct, Wrap64;
    var i := F.code[m.pc];
    UsesAt(F, m, c0);
    Entered(F, m, c0);
    k, c1 := 0, c0;
    if Value(m, i.a).Some? {
      var x := Value(m, i.a).value;
      var c := LoadOk(F, m, c0, 0, c0, i.a, RAX, x);
      var v := UnVal(i.uop, x);
      RegisterOk(F, m, c0, 1, c, if i.uop == Neg then NegQ else NotQ, Put(c, RAX, v));
      k, c1 := SetOk(F, m, c0, 2, Put(c, RAX, v), i.dst, RAX, v);
    }
  }

  lemma AluMeans(op: BinOp, unsigned: bool, x: int, y: int)
    requires AluFor(op).Some?
    ensures BinVal(op, unsigned, x, y) == Some(AluVal(AluFor(op).value, y, x))
    ensures Int64(AluVal(AluFor(op).value, y, x))
  {
    hide Wrap64, Bitwise, Pow2;
    assert (y % 256) % 64 == y % 64;
  }

  lemma BinBlock(F: Act, m: State, c0: Cpu)
    requires Ready(F, m, c0) && F.code[m.pc].Bin?
    ensures var i := F.code[m.pc];
            && Block(F, m.pc) == SelectBin(F.ra, i.op, i.dst, i.a, i.b, i.unsigned)
            && 1 <= i.dst < F.n && Inside(F, m, c0, 0, c0)
  {
    hide Match, SelectBin;
    UsesAt(F, m, c0);
    Entered(F, m, c0);
  }

  lemma AluOk(F: Act, m: State, c0: Cpu) returns (k: nat, c1: Cpu)
    requires Ready(F, m, c0) && F.code[m.pc].Bin? && AluFor(F.code[m.pc].op).Some?
    ensures Shows(F, Step(F.code, F.base, m), c0, k, c1)
  {
    hide Effect, Inside, Match, Blocks, Text, Start, CpuSteps, Data, GoodAct, LoadReg, StoreReg, At, BinVal, AluVal,
         Block;
    var i := F.code[m.pc];
    BinBlock(F, m, c0);
    k, c1 := 0, c0;
    if Value(m, i.a).Some? && Value(m, i.b).Some? {
      var x, y, op := Value(m, i.a).value, Value(m, i.b).value, AluFor(i.op).value;
      var ca := LoadOk(F, m, c0, 0, c0, i.a, RAX, x);
      var cb := LoadOk(F, m, c0, 1, ca, i.b, RCX, y);
      AluMeans(i.op, i.unsigned, x, y);
      AluEffect(AsmOf(F), op, cb);
      var v := AluVal(op, y, x);
      RegisterOk(F, m, c0, 2, cb, Alu(op), Put(cb, RAX, v));
      k, c1 := SetOk(F, m, c0, 3, Put(cb, RAX, v), i.dst, RAX, v);
    }
  }

  /** The operands of a division, with the quotient and the remainder that C gives them. */
  predicate Quotient(m: State, a: Operand, b: Operand, q: int, r: int) {
    && Value(m, a).Some? && Value(m, b).Some? && Truncated(Value(m, a).value, Value(m, b).value, q, r)
    && !(Value(m, a).value == -0x8000_0000_0000_0000 && Value(m, b).value == -1)
  }

  /**
   `cqto` makes the 128-bit dividend the value itself, so `idivq` divides it as C does: the slot of
   the destination comes to hold the truncated quotient or the remainder.
   */
  lemma DivideOk(F: Act, m: State, c0: Cpu) returns (k: nat, c1: Cpu)
    requires Ready(F, m, c0) && F.code[m.pc].Bin? && (F.code[m.pc].op == Div || F.code[m.pc].op == Mod)
    ensures Shows(F, Step(F.code, F.base, m), c0, k, c1)
    ensures var i := F.code[m.pc];
            forall q, r :: Quotient(m, i.a, i.b, q, r) ==>
              Step(F.code, F.base, m) == Set(m, i.dst, if i.op == Div then q else r)
  {
    hide Effect, Inside, Match, Blocks, Text, Start, CpuSteps, Data, GoodAct, LoadReg, StoreReg, At, Wrap64, TruncDiv,
         TruncMod, Block, Shows, Truncated;
    var i := F.code[m.pc];
    StuckShows(F, c0, 0, c0);
    BinBlock(F, m, c0);
    k, c1 := 0, c0;
    if Value(m, i.a).Some? && Value(m, i.b).Some? {
      var x, y := Value(m, i.a).value, Value(m, i.b).value;
      var ca := LoadOk(F, m, c0, 0, c0, i.a, RAX, x);
      CqtoEffect(AsmOf(F), ca);
      var cb := Put(ca, RDX, if x < 0 then -1 else 0);
      RegisterOk(F, m, c0, 1, ca, Cqto, cb);
      var cc := LoadOk(F, m, c0, 2, cb, i.b, RCX, y);
      QuotientStep(F, m);
      if BinVal(i.op, i.unsigned, x, y).Some? {
        var q, r := DivideDefined(i.op, i.unsigned, x, y);
        var cd := DivideRun(F, m, c0, cc, x, y, q, r);
        k, c1 := SetOk(F, m, c0, 4, cd, i.dst, if i.op == Div then RAX else RDX, if i.op == Div then q else r);
      }
    }
  }

  lemma QuotientStep(F: Act, m: State)
    requires m.pc < |F.code| && F.code[m.pc].Bin? && (F.code[m.pc].op == Div || F.code[m.pc].op == Mod)
    requires var i := F.code[m.pc];
             Value(m, i.a).Some? && Value(m, i.b).Some? && Int64(Value(m, i.a).value) && Int64(Value(m, i.b).value)
    ensures var i := F.code[m.pc];
            forall q, r :: Quotient(m, i.a, i.b, q, r) ==>
              Step(F.code, F.base, m) == Set(m, i.dst, if i.op == Div then q else r)
  {
    hide Wrap64, TruncDiv, TruncMod, Truncated, BinVal;
    var i := F.code[m.pc];
    forall q, r | Quotient(m, i.a, i.b, q, r)
      ensures Step(F.code, F.base, m) == Set(m, i.dst, if i.op == Div then q else r)
    {
      DivideValues(i.unsigned, Value(m, i.a).value, Value(m, i.b).value, q, r);
    }
  }

  lemma DivideDefined(op: BinOp, unsigned: bool, x: int, y: int) returns (q: int, r: int)
    requires Int64(x) && Int64(y) && (op == Div || op == Mod) && BinVal(op, unsigned, x, y).Some?
    ensures Truncated(x, y, q, r) && !(x == -0x8000_0000_0000_0000 && y == -1)
    ensures BinVal(op, unsigned, x, y) == Some(if op == Div then q else r)
  {
    hide TruncDiv, TruncMod, Truncated, Wrap64;
    q, r := TruncDiv(x, y), TruncMod(x, y);
    TruncDivides(x, y);
    DivideValues(unsigned, x, y, q, r);
  }

  lemma DivideRun(F: Act, m: State, c0: Cpu, c: Cpu, x: int, y: int, q: int, r: int) returns (cd: Cpu)
    requires Inside(F, m, c0, 3, c) && 3 < |Block(F, m.pc)| && Block(F, m.pc)[3] == Idiv
    requires c.rax == x && c.rcx == y && Int64(x) && Int64(y) && c.rdx == if x < 0 then -1 else 0
    requires Truncated(x, y, q, r) && !(x == -0x8000_0000_0000_0000 && y == -1)
    ensures Inside(F, m, c0, 4, cd) && cd.rax == q && cd.rdx == r
  {
    hide Effect, Inside, Block, Truncated;
    IdivEffect(AsmOf(F), c, q, r);
    cd := c.(pc := c.pc + 1, rax := q, rdx := r);
    RegisterOk(F, m, c0, 3, c, Idiv, cd);
  }

  predicate IsCompare(op: BinOp) {
    op == Eq || op == Ne || op == Lt || op == Le || op == Gt || op == Ge
  }

  lemma ConditionHolds(c: Cpu, op: BinOp, unsigned: bool)
    requires Int64(c.rax) && Int64(c.rcx) && IsCompare(op)
    ensures BinVal(op, unsigned, c.rax, c.rcx) == Some(Bool(Holds(CondFor(op, unsigned), Compared(c))))
  {
    hide Wrap64;
    CompareFlags(c.rax, c.rcx);
  }

  lemma CompareOk(F: Act, m: State, c0: Cpu) returns (k: nat, c1: Cpu)
    requires Ready(F, m, c0) && F.code[m.pc].Bin? && IsCompare(F.code[m.pc].op)
    ensures Shows(F, Step(F.code, F.base, m), c0, k, c1)
  {
    hide Effect, Inside, Match, Blocks, Text, Start, CpuSteps, Data, GoodAct, LoadReg, StoreReg, At, BinVal, Holds,
         CondFor, Block, Shows, Compared;
    var i := F.code[m.pc];
    StuckShows(F, c0, 0, c0);
    BinBlock(F, m, c0);
    k, c1 := 0, c0;
    if Value(m, i.a).Some? && Value(m, i.b).Some? {
      var x, y, q := Value(m, i.a).value, Value(m, i.b).value, CondFor(i.op, i.unsigned);
      var ca := LoadOk(F, m, c0, 0, c0, i.a, RAX, x);
      var cb := LoadOk(F, m, c0, 1, ca, i.b, RCX, y);
      var v, cd := CompareRun(F, m, c0, cb, q);
      ConditionHolds(cb, i.op, i.unsigned);
      k, c1 := SetOk(F, m, c0, 5, cd, i.dst, RAX, v);
    }
  }

  /** The three middle instructions of a comparison leave the condition in %rax as 0 or 1. */
  lemma CompareRun(F: Act, m: State, c0: Cpu, c: Cpu, q: Cond) returns (v: int, cd: Cpu)
    requires Inside(F, m, c0, 2, c) && |Block(F, m.pc)| == 6
    requires Block(F, m.pc)[2] == Cmp && Block(F, m.pc)[3] == SetCC(q) && Block(F, m.pc)[4] == Movzb
    ensures v == Bool(Holds(q, Compared(c))) && cd.rax == v && Inside(F, m, c0, 5, cd)
  {
    hide Effect, Inside, Match, Blocks, Text, Start, CpuSteps, Data, GoodAct, LoadReg, StoreReg, At, Holds, Select,
         Wrap64, U64;
    var cc := Compared(c);
    CompareEffects(AsmOf(F), q, c);
    RegisterOk(F, m, c0, 2, c, Cmp, cc);
    v := Bool(Holds(q, cc));
    var ce := Put(cc, RAX, c.rax - c.rax % 256 + v);
    CompareEffects(AsmOf(F), q, cc);
    RegisterOk(F, m, c0, 3, cc, SetCC(q), ce);
    CompareEffects(AsmOf(F), q, ce);
    cd := Put(ce, RAX, v);
    RegisterOk(F, m, c0, 4, ce, Movzb, cd);
  }

  // ----- conversions -----

  function ConvertTo(i: Instr): Option<(nat, Operand, bool, nat, bool)> {
    match i
    case Sext(dst, src, size) => Some((dst, src, Width(size) < 8, Width(size), true))
    case Zext(dst, src, size) => Some((dst, src, Width(size) < 4, Width(size), false))
    case Trunc(dst, src, size, signed) => Some((dst, src, Width(size) < 8, Width(size), signed))
    case _ => None
  }

  /** What the text of a conversion leaves in the destination. */
  function Converted(narrow: bool, w: nat, signed: bool, x: int): int {
    if narrow then Extend(signed, Encode(w, x)) else x
  }

  lemma ConvertBlock(a: Asm, narrow: bool, w: nat, signed: bool, z: seq<Asm>)
    requires 1 <= |z| <= 2
    ensures var s := [a] + Convert(narrow, w, signed) + z; var j := if narrow then 2 else 1;
            |s| == j + |z| && s[0] == a && (narrow ==> s[1] == ExtRax(w, signed)) && s[j] == z[0]
            && (|z| == 2 ==> s[j + 1] == z[1])
  {
  }

  lemma ConvertShape(F: Act, m: State, c0: Cpu)
    requires Ready(F, m, c0) && ConvertTo(F.code[m.pc]).Some?
    ensures var (dst, src, narrow, w, signed), b := ConvertTo(F.code[m.pc]).value, Block(F, m.pc);
            && 1 <= dst < F.n && Inside(F, m, c0, 0, c0) && |b| == (if narrow then 3 else 2)
            && (narrow ==> w == 1 || w == 2 || w == 4)
            && b[0] == LoadReg(F.ra, src, RAX) && (narrow ==> b[1] == ExtRax(w, signed))
            && b[|b| - 1] == StoreReg(F.ra, dst, RAX)
  {
    hide Match, LoadReg, StoreReg, Convert;
    var (dst, src, narrow, w, signed) := ConvertTo(F.code[m.pc]).value;
    assert Block(F, m.pc) == [LoadReg(F.ra, src, RAX)] + Convert(narrow, w, signed) + [StoreReg(F.ra, dst, RAX)];
    ConvertBlock(LoadReg(F.ra, src, RAX), narrow, w, signed, [StoreReg(F.ra, dst, RAX)]);
    UsesAt(F, m, c0);
    Entered(F, m, c0);
  }

  lemma ConvertRun(F: Act, m: State, c0: Cpu, x: int) returns (k: nat, c1: Cpu)
    requires Ready(F, m, c0) && ConvertTo(F.code[m.pc]).Some?
    requires Value(m, ConvertTo(F.code[m.pc]).value.1) == Some(x)
    ensures var (dst, _, narrow, w, signed) := ConvertTo(F.code[m.pc]).value;
            Shows(F, Set(m, dst, Converted(narrow, w, signed, x)), c0, k, c1)
  {
    hide Effect, Inside, Match, Blocks, Text, Start, CpuSteps, Data, GoodAct, LoadReg, StoreReg, At, Select, Convert,
         Value, Extend, Encode, Block, Shows, ConvertTo;
    var (dst, src, narrow, w, signed) := ConvertTo(F.code[m.pc]).value;
    ConvertShape(F, m, c0);
    var c := LoadOk(F, m, c0, 0, c0, src, RAX, x);
    if narrow {
      var v := Extend(signed, Encode(w, x));
      NarrowValue(w, signed, Encode(w, x));
      ExtEffect(AsmOf(F), w, signed, c);
      RegisterOk(F, m, c0, 1, c, ExtRax(w, signed), Put(c, RAX, v));
      k, c1 := SetOk(F, m, c0, 2, Put(c, RAX, v), dst, RAX, v);
    } else {
      k, c1 := SetOk(F, m, c0, 1, c, dst, RAX, x);
    }
  }

  /** Where a 4-byte zero extension is executed, its operand must already have a clear upper half. */
  predicate ZextOk(i: Instr, m: State) {
    i.Zext? && Width(i.size) == 4 && Value(m, i.src).Some? ==> 0 <= Value(m, i.src).value < 0x1_0000_0000
  }

  lemma ConvertOk(F: Act, m: State, c0: Cpu) returns (k: nat, c1: Cpu)
    requires Ready(F, m, c0) && ConvertTo(F.code[m.pc]).Some? && ZextOk(F.code[m.pc], m)
    ensures Shows(F, Step(F.code, F.base, m), c0, k, c1)
  {
    hide Blocks, Text, Start, CpuSteps, Data, GoodAct, Encode, DecodeS, DecodeU, Shows;
    var i := F.code[m.pc];
    k, c1 := 0, c0;
    if Value(m, i.src).Some? {
      var x := Value(m, i.src).value;
      OperandInt(F, m, c0, i.src, x);
      Decode64(x);
      if i.Zext? && Width(i.size) == 4 {
        assert Pow256(4) == 0x1_0000_0000;
        DecodeUEncode(4, x);
      }
      k, c1 := ConvertRun(F, m, c0, x);
    } else {
      assert Shows(F, Stuck, c0, k, c1) by { StuckShows(F, c0, k, c1); }
    }
  }

  lemma StuckShows(F: Act, c0: Cpu, k: nat, c1: Cpu)
    ensures Shows(F, Stuck, c0, k, c1)
  {
  }

  lemma OperandInt(F: Act, m: State, c0: Cpu, v: Operand, x: int)
    requires Match(F, m, c0) && Value(m, v) == Some(x)
    ensures Int64(x)
  {
    if v.Temp? {
      SlotHolds(F, m.temps, m.mem, c0.mem, v.id);
    }
  }

  /** The text of a 4-byte zero extension has the IR's meaning for exactly the values `ZextOk` allows. */
  lemma ZextFourExact(i: Instr, base: seq<int>, m: State)
    requires i.Zext? && Width(i.size) == 4 && Value(m, i.src).Some? && Int64(Value(m, i.src).value)
    ensures var (dst, src, narrow, w, signed) := ConvertTo(i).value;
            ZextOk(i, m) <==> Step([i], base, m.(pc := 0)) == Set(m.(pc := 0), dst, Converted(narrow, w, signed, Value(m, src).value))
  {
    hide Encode, DecodeU;
    var x := Value(m, i.src).value;
    assert Pow256(4) == 0x1_0000_0000;
    DecodeRange(Encode(4, x));
    var z := DecodeU(Encode(4, x));
    assert Value(m.(pc := 0), i.src) == Some(x);
    if ZextOk(i, m) {
      DecodeUEncode(4, x);
    } else {
      assert m.temps[i.dst := z][i.dst] == z != x == m.temps[i.dst := x][i.dst];
    }
  }

  // ----- control -----

  lemma LabelOk(F: Act, m: State, c0: Cpu) returns (k: nat, c1: Cpu)
    requires Ready(F, m, c0) && F.code[m.pc].Label?
    ensures Shows(F, Step(F.code, F.base, m), c0, k, c1)
  {
    hide Blocks, Text, Start, CpuSteps, Data, GoodAct;
    Entered(F, m, c0);
    Fetch(F, m, c0, 0, c0);
    BlockAt(F, m.pc);
    k, c1 := 1, c0.(pc := c0.pc + 1);
    MoveOk(F, m, c0, 1, c1, m.pc + 1);
  }

  lemma JumpOk(F: Act, m: State, c0: Cpu, k: nat, c: Cpu, l: nat) returns (c1: Cpu)
    requires Ready(F, m, c0) && k >= 1 && CpuSteps(AsmOf(F), c0, k) == Go(AsmOf(F), c, l)
    requires c.rbp == c0.rbp && c.rsp == c0.rsp && c.mem == c0.mem
    ensures Shows(F, Jump(F.code, m, l), c0, k, c1)
  {
    hide Blocks, Text, CpuSteps, Data, GoodAct;
    c1 := c;
    if Find(F.code, l) < |F.code| {
      JumpLands(F, l);
      c1 := c.(pc := SeekFrom(AsmOf(F), l, 0));
      MoveOk(F, m, c0, k, c1, Find(F.code, l));
    }
  }

  lemma BranchOk(F: Act, m: State, c0: Cpu) returns (k: nat, c1: Cpu)
    requires Ready(F, m, c0) && (F.code[m.pc].Jz? || F.code[m.pc].Jnz?)
    ensures Shows(F, Step(F.code, F.base, m), c0, k, c1)
  {
    hide Effect, Blocks, Text, Start, CpuSteps, Data, GoodAct, Go, Jump, LoadReg, StoreReg, At;
    var i := F.code[m.pc];
    Entered(F, m, c0);
    k, c1 := 0, c0;
    if Value(m, i.cond).Some? {
      var x := Value(m, i.cond).value;
      var ca := LoadOk(F, m, c0, 0, c0, i.cond, RAX, x);
      TestEffect(AsmOf(F), i.l, ca);
      var cb := ca.(pc := ca.pc + 1, zf := x == 0, sf := x < 0, of := false, cf := false);
      RegisterOk(F, m, c0, 1, ca, Test, cb);
      Fetch(F, m, c0, 2, cb);
      TestEffect(AsmOf(F), i.l, cb);
      BlockAt(F, m.pc);
      k := 3;
      if (x == 0) == i.Jz? {
        c1 := JumpOk(F, m, c0, 3, cb, i.l);
      } else {
        c1 := cb.(pc := cb.pc + 1);
        MoveOk(F, m, c0, 3, c1, m.pc + 1);
      }
    }
  }

  lemma JmpOk(F: Act, m: State, c0: Cpu) returns (k: nat, c1: Cpu)
    requires Ready(F, m, c0) && F.code[m.pc].Jmp?
    ensures Shows(F, Step(F.code, F.base, m), c0, k, c1)
  {
    hide Blocks, Text, Start, CpuSteps, Data, GoodAct, Go, Jump;
    Entered(F, m, c0);
    Fetch(F, m, c0, 0, c0);
    k := 1;
    c1 := JumpOk(F, m, c0, 1, c0, F.code[m.pc].l);
  }

  /** `leave; retq` hands everything back to the caller. */
  lemma LeaveOk(F: Act, m: State, c0: Cpu, k: nat, c: Cpu, v: Option<int>) returns (c1: Cpu)
    requires GoodAct(F) && Data(F, m.temps, m.mem, c.mem) && c.rbp == F.rbp
    requires CpuSteps(AsmOf(F), c0, k) == X86.Run(c)
    requires c.pc + 1 < |AsmOf(F)| && AsmOf(F)[c.pc] == Leave && AsmOf(F)[c.pc + 1] == Retq
    requires v.Some? ==> c.rax == Returns(F.ret, v.value)
    ensures Shows(F, Halt(v, m), c0, k + 2, c1)
  {
    hide Blocks, Text, CpuSteps, Read, DecodeS, Returns;
    Next(AsmOf(F), c0, k);
    assert InBounds(c.mem, c.rbp, 8) && InBounds(c.mem, c.rbp + 8, 8);
    var ca := c.(pc := c.pc + 1, rsp := c.rbp + 8, rbp := F.callerRbp);
    assert CpuStep(AsmOf(F), c) == X86.Run(ca);
    Next(AsmOf(F), c0, k + 1);
    c1 := ca.(rsp := ca.rsp + 8);
  }

  lemma RetShape(F: Act, m: State, c0: Cpu)
    requires Ready(F, m, c0) && F.code[m.pc].Ret?
    ensures var v, w, b := F.code[m.pc].v, Width(F.ret.size), Block(F, m.pc);
            && Inside(F, m, c0, 0, c0)
            && |b| == (if v.None? then 2 else if w < 8 then 4 else 3) && b[|b| - 2] == Leave && b[|b| - 1] == Retq
            && (v.Some? ==> b[0] == LoadReg(F.ra, v.value, RAX) && (w < 8 ==> b[1] == ExtRax(w, F.ret.signed)))
  {
    hide Match, LoadReg, Convert;
    var v, w := F.code[m.pc].v, Width(F.ret.size);
    if v.Some? {
      ConvertBlock(LoadReg(F.ra, v.value, RAX), w < 8, w, F.ret.signed, [Leave, Retq]);
      assert Block(F, m.pc) == [LoadReg(F.ra, v.value, RAX)] + Convert(w < 8, w, F.ret.signed) + [Leave, Retq];
    }
    Entered(F, m, c0);
  }

  lemma RetOk(F: Act, m: State, c0: Cpu) returns (k: nat, c1: Cpu)
    requires Ready(F, m, c0) && F.code[m.pc].Ret?
    ensures Shows(F, Step(F.code, F.base, m), c0, k, c1)
  {
    hide Effect, Blocks, Text, Start, CpuSteps, Data, GoodAct, Encode, DecodeS, DecodeU, Inside, Match, Select,
         Convert, LoadReg, Block, Shows;
    var i := F.code[m.pc];
    k, c1 := 0, c0;
    StuckShows(F, c0, 0, c0);
    RetShape(F, m, c0);
    if i.v.None? {
      k, c1 := LeaveBlock(F, m, c0, 0, c0, None);
    } else if Value(m, i.v.value).Some? {
      var x, w := Value(m, i.v.value).value, Width(F.ret.size);
      var c := LoadOk(F, m, c0, 0, c0, i.v.value, RAX, x);
      if w < 8 {
        ExtEffect(AsmOf(F), w, F.ret.signed, c);
        var cb := Put(c, RAX, Extend(F.ret.signed, Encode(w, x)));
        RegisterOk(F, m, c0, 1, c, ExtRax(w, F.ret.signed), cb);
        k, c1 := LeaveBlock(F, m, c0, 2, cb, Some(x));
      } else {
        k, c1 := LeaveBlock(F, m, c0, 1, c, Some(x));
      }
    }
  }

  /** The end of the block of a `return`. */
  lemma LeaveBlock(F: Act, m: State, c0: Cpu, j: nat, c: Cpu, v: Option<int>) returns (k: nat, c1: Cpu)
    requires Inside(F, m, c0, j, c) && |Block(F, m.pc)| == j + 2
    requires Block(F, m.pc)[j] == Leave && Block(F, m.pc)[j + 1] == Retq
    requires v.Some? ==> c.rax == Returns(F.ret, v.value)
    ensures Shows(F, Halt(v, m), c0, k, c1)
  {
    hide Effect, Blocks, Text, Start, CpuSteps, Data, GoodAct, Select, Returns;
    BlockAt(F, m.pc);
    assert AsmOf(F)[Start(F, m.pc) + j] == Leave && AsmOf(F)[Start(F, m.pc) + (j + 1)] == Retq;
    c1 := LeaveOk(F, m, c0, j, c, v);
    k := j + 2;
  }

  lemma EndOk(F: Act, m: State, c0: Cpu) returns (k: nat, c1: Cpu)
    requires Match(F, m, c0) && m.pc == |F.code|
    ensures Shows(F, Halt(None, m), c0, k, c1)
  {
    hide Blocks, Text, Data, GoodAct;
    EpilogueAt(F);
    c1 := LeaveOk(F, m, c0, 0, c0, None);
    k := 2;
  }

  /** One step of the IR machine is one or more steps of the processor. */
  lemma StepOk(F: Act, m: State, c0: Cpu) returns (k: nat, c1: Cpu)
    requires Match(F, m, c0) && (m.pc < |F.code| ==> ZextOk(F.code[m.pc], m))
    ensures Shows(F, Step(F.code, F.base, m), c0, k, c1)
  {
    if m.pc == |F.code| {
      k, c1 := EndOk(F, m, c0);
    } else {
      hide Match, Shows, Step, ZextOk;
      assert Ready(F, m, c0);
      match F.code[m.pc]
      case Alloca(_, _, _) => k, c1 := AllocaOk(F, m, c0);
      case Load(_, _, _, _) => k, c1 := LoadInstrOk(F, m, c0);
      case Store(_, _, _) => k, c1 := StoreInstrOk(F, m, c0);
      case Copy(_, _) => k, c1 := CopyOk(F, m, c0);
      case Bin(op, _, _, _, _) =>
        if AluFor(op).Some? {
          k, c1 := AluOk(F, m, c0);
        } else if op == Div || op == Mod {
          k, c1 := DivideOk(F, m, c0);
        } else {
          k, c1 := CompareOk(F, m, c0);
        }
      case Un(_, _, _) => k, c1 := UnOk(F, m, c0);
      case Label(_) => k, c1 := LabelOk(F, m, c0);
      case Jmp(_) => k, c1 := JmpOk(F, m, c0);
      case Jz(_, _) => k, c1 := BranchOk(F, m, c0);
      case Jnz(_, _) => k, c1 := BranchOk(F, m, c0);
      case Ret(_) => k, c1 := RetOk(F, m, c0);
      case _ => k, c1 := ConvertOk(F, m, c0);
    }
  }

  // ----- whole runs -----

  /** `ZextOk` at every instruction that the first `k` steps execute. */
  predicate ZextsOk(F: Act, m: State, k: nat)
    decreases k
  {
    k > 0 && m.pc < |F.code| ==>
      && ZextOk(F.code[m.pc], m)
      && (Step(F.code, F.base, m).Run? ==> ZextsOk(F, Step(F.code, F.base, m).s, k - 1))
  }

  /** `Shows` for a run of `n` IR steps, each of which took the processor at least one. */
  predicate RunShows(F: Act, n: nat, r: Status, c0: Cpu, k: nat, c1: Cpu) {
    match r
    case Run(m1) => k >= n && CpuSteps(AsmOf(F), c0, k) == X86.Run(c1) && Match(F, m1, c1)
    case Halt(v, _) => CpuSteps(AsmOf(F), c0, k) == Returned(c1, F.retAddr) && HandsBack(F, c1, v)
    case Stuck => true
  }

  /** The frame refinement, for every run of the IR machine that does not get stuck. */
  lemma {:induction false} RunOk(F: Act, m: State, c0: Cpu, n: nat) returns (k: nat, c1: Cpu)
    requires Match(F, m, c0) && ZextsOk(F, m, n)
    ensures RunShows(F, n, Steps(F.code, F.base, m, n), c0, k, c1)
    decreases n
  {
    hide Match, Step, ZextOk, HandsBack, Text, Effect;
    k, c1 := 0, c0;
    if n > 0 {
      assert m.pc < |F.code| ==> ZextOk(F.code[m.pc], m);
      k, c1 := StepOk(F, m, c0);
      match Step(F.code, F.base, m)
      case Run(m1) =>
        assert ZextsOk(F, m1, n - 1) by {
          if m.pc >= |F.code| { EndHalts(F, m); }
        }
        var k2, c2 := RunOk(F, m1, c1, n - 1);
        CpuAdd(AsmOf(F), c0, k, k2);
        k, c1 := k + k2, c2;
      case _ =>
    }
  }

  lemma EndHalts(F: Act, m: State)
    requires m.pc >= |F.code|
    ensures Step(F.code, F.base, m) == Halt(None, m)
  {
  }

  // ----- entering a function -----

  /**
   The processor at the first instruction of a function, just after a call: the return address is
   on top of the stack and the stack has room for a frame of `size` bytes.
   */
  predicate Called(c: Cpu, size: nat) {
    && c.pc == 0 && Int64(c.rbp) && Int64(c.rsp + 8) && Int64(c.rsp - 8 - size)
    && InBounds(c.mem, c.rsp - 8 - size, size + 16)
  }

  /** The activation that a call creates. */
  function Activation(code: seq<Instr>, n: nat, ra: Layout, ret: Scalar, c: Cpu): Act
    requires ra.frameSize >= 0 && Called(c, ra.frameSize)
  {
    Act(code, n, ra, ret, c.rsp - 8, seq(|ra.off|, t requires 0 <= t < |ra.off| => c.rsp - 8 + ra.off[t]),
        c.rbp, DecodeS(Read(c.mem, c.rsp, 8)), c.mem)
  }

  /** The bytes below the slots, where the regions lie. */
  function RegionBytes(F: Act, mem: Mem): Mem {
    map a | a in mem && F.rbp - F.ra.frameSize <= a < F.rbp - 8 * F.n :: mem[a]
  }

  /** The prologue establishes the refinement relation with an IR machine that has no temporaries. */
  lemma PrologueOk(code: seq<Instr>, n: nat, ra: Layout, ret: Scalar, c: Cpu) returns (c1: Cpu)
    requires ra.frameSize >= 0 && Called(c, ra.frameSize)
    requires GoodAct(Activation(code, n, ra, ret, c))
    ensures var F := Activation(code, n, ra, ret, c);
            CpuSteps(AsmOf(F), c, 3) == X86.Run(c1) && Match(F, State(0, map[], RegionBytes(F, c.mem)), c1)
  {
    hide Select, Encode, DecodeS, Read;
    var F := Activation(code, n, ra, ret, c);
    var text, p := AsmOf(F), Prologue(ra);
    assert text[0] == p[0] && text[1] == p[1] && text[2] == p[2];
    var bs := Encode(8, c.rbp);
    var ca := c.(pc := 1, rsp := c.rsp - 8, mem := Write(c.mem, c.rsp - 8, bs));
    assert CpuSteps(text, c, 0) == X86.Run(c);
    assert InBounds(c.mem, c.rsp - 8, 8);
    Next(text, c, 0);
    Next(text, c, 1);
    Next(text, c, 2);
    c1 := ca.(pc := 3, rbp := ca.rsp, rsp := ca.rsp - ra.frameSize);
    assert Start(F, 0) == 3;
    ReadBack(c.mem, F.rbp, bs);
    Decode64(c.rbp);
    ReadElsewhere(c.mem, F.rbp, bs, F.rbp + 8, 8);
  }
}
