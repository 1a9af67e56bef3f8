/**
 The x86-64 instructions integer code uses, and a processor for them: five registers that matter
 here besides %rip, the flags that `setcc` and `jcc` read, and one flat byte memory. An access to
 an unmapped byte and a trapping `idivq` are faults. An assembler label takes a step of its own.
 */
module X86 {
  import opened Bits

  datatype Reg = RAX | RCX | RDX | R10

  datatype AluOp = AddQ | SubQ | ImulQ | AndQ | OrQ | XorQ | SalQ | SarQ

  datatype Cond = CE | CNE | CL | CLE | CG | CGE | CB | CBE | CA | CAE

  /** Operand orders follow AT&T syntax: the destination comes last. */
  datatype Asm =
    | MovImm(v: int, r: Reg)             // movq $v, r
    | LoadSlot(off: int, r: Reg)         // movq off(%rbp), r
    | StoreSlot(r: Reg, off: int)        // movq r, off(%rbp)
    | Lea(off: int, r: Reg)              // leaq off(%rbp), r
    | LeaGlobal(name: string, r: Reg)    // leaq name(%rip), r
    | LoadMem(w: nat, signed: bool)      // mov[sz]<w>q (%rax), %rdx
    | StoreMem(w: nat)                   // mov<w> %rax, (%r10)
    | Alu(op: AluOp)                     // op %rcx, %rax; shifts take %cl
    | Cqto
    | Idiv                               // idivq %rcx
    | NegQ                               // negq %rax
    | NotQ                               // notq %rax
    | Cmp                                // cmpq %rcx, %rax
    | SetCC(cc: Cond)                    // set<cc> %al
    | Movzb                              // movzbq %al, %rax
    | ExtRax(w: nat, signed: bool)       // mov[sz]<w>q %rax, %rax
    | Test                               // testq %rax, %rax
    | Lbl(l: nat)
    | JmpTo(l: nat)
    | Je(l: nat)
    | Jne(l: nat)
    | PushRbp
    | MovRspRbp
    | SubRsp(n: int)
    | Leave
    | Retq

  datatype Cpu = Cpu(pc: nat, rax: int, rcx: int, rdx: int, r10: int, rbp: int, rsp: int,
                     zf: bool, sf: bool, of: bool, cf: bool, mem: Mem)

  /** `Returned` is control back in the caller, at the address that was on the stack. */
  datatype Outcome = Run(c: Cpu) | Returned(c: Cpu, to: int) | Fault

  function Get(c: Cpu, r: Reg): int {
    match r
    case RAX => c.rax
    case RCX => c.rcx
    case RDX => c.rdx
    case R10 => c.r10
  }

  function Put(c: Cpu, r: Reg, v: int): Cpu {
    match r
    case RAX => c.(rax := v, pc := c.pc + 1)
    case RCX => c.(rcx := v, pc := c.pc + 1)
    case RDX => c.(rdx := v, pc := c.pc + 1)
    case R10 => c.(r10 := v, pc := c.pc + 1)
  }

  function AluVal(op: AluOp, rcx: int, rax: int): int {
    match op
    case AddQ => Wrap64(rax + rcx)
    case SubQ => Wrap64(rax - rcx)
    case ImulQ => Wrap64(rax * rcx)
    case AndQ => Wrap64(Bitwise(BitAnd, 63, rax, rcx))
    case OrQ => Wrap64(Bitwise(BitOr, 63, rax, rcx))
    case XorQ => Wrap64(Bitwise(BitXor, 63, rax, rcx))
    case SalQ => Wrap64(rax * Pow2((rcx % 256) % 64))
    case SarQ => Wrap64(rax / Pow2((rcx % 256) % 64))
  }

  predicate Holds(cc: Cond, c: Cpu) {
    match cc
    case CE => c.zf
    case CNE => !c.zf
    case CL => c.sf != c.of
    case CLE => c.zf || c.sf != c.of
    case CG => !c.zf && c.sf == c.of
    case CGE => c.sf == c.of
    case CB => c.cf
    case CBE => c.cf || c.zf
    case CA => !c.cf && !c.zf
    case CAE => !c.cf
  }

  function MemVal(w: nat, signed: bool, bs: seq<byte>): int {
    if w == 8 then DecodeS(bs) else Extend(signed, bs)
  }

  /** Where label `l` stands at or after `from`, or the end of the text. */
  function SeekFrom(text: seq<Asm>, l: nat, from: nat): (p: nat)
    requires from <= |text|
    ensures from <= p <= |text|
    decreases |text| - from
  {
    if from == |text| then |text|
    else if text[from] == Lbl(l) then from
    else SeekFrom(text, l, from + 1)
  }

  function Go(text: seq<Asm>, c: Cpu, l: nat): Outcome {
    var p := SeekFrom(text, l, 0);
    if p < |text| then Run(c.(pc := p)) else Fault
  }

  function Push(c: Cpu, v: int): Outcome {
    if InBounds(c.mem, c.rsp - 8, 8)
    then Run(c.(pc := c.pc + 1, rsp := c.rsp - 8, mem := Write(c.mem, c.rsp - 8, Encode(8, v))))
    else Fault
  }

  /** What instruction `a` does. */
  function Effect(text: seq<Asm>, a: Asm, c: Cpu): Outcome {
    match a
    case MovImm(v, r) => if Int64(v) then Run(Put(c, r, v)) else Fault
    case LoadSlot(off, r) =>
      if InBounds(c.mem, c.rbp + off, 8) then Run(Put(c, r, DecodeS(Read(c.mem, c.rbp + off, 8)))) else Fault
    case StoreSlot(r, off) =>
      if InBounds(c.mem, c.rbp + off, 8)
      then Run(c.(pc := c.pc + 1, mem := Write(c.mem, c.rbp + off, Encode(8, Get(c, r)))))
      else Fault
    case Lea(off, r) => Run(Put(c, r, Wrap64(c.rbp + off)))
    case LeaGlobal(_, _) => Fault
    case LoadMem(w, signed) =>
      if InBounds(c.mem, c.rax, w) then Run(Put(c, RDX, MemVal(w, signed, Read(c.mem, c.rax, w)))) else Fault
    case StoreMem(w) =>
      if InBounds(c.mem, c.r10, w)
      then Run(c.(pc := c.pc + 1, mem := Write(c.mem, c.r10, Encode(w, c.rax))))
      else Fault
    case Alu(op) => Run(Put(c, RAX, AluVal(op, c.rcx, c.rax)))
    case Cqto => Run(Put(c, RDX, if c.rax < 0 then -1 else 0))
    case Idiv =>
      var n := c.rdx * 0x1_0000_0000_0000_0000 + U64(c.rax);
      if c.rcx == 0 || !Int64(TruncDiv(n, c.rcx)) then Fault
      else Run(c.(pc := c.pc + 1, rax := TruncDiv(n, c.rcx), rdx := Wrap64(TruncMod(n, c.rcx))))
    case NegQ => Run(Put(c, RAX, Wrap64(-c.rax)))
    case NotQ => Run(Put(c, RAX, Wrap64(-c.rax - 1)))
    case Cmp =>
      var d := c.rax - c.rcx;
      Run(c.(pc := c.pc + 1, zf := Wrap64(d) == 0, sf := Wrap64(d) < 0, of := !Int64(d),
             cf := U64(c.rax) < U64(c.rcx)))
    case SetCC(cc) => Run(Put(c, RAX, c.rax - c.rax % 256 + Bool(Holds(cc, c))))
    case Movzb => Run(Put(c, RAX, c.rax % 256))
    case ExtRax(w, signed) => Run(Put(c, RAX, Extend(signed, Encode(w, c.rax))))
    case Test =>
      var a := Wrap64(Bitwise(BitAnd, 63, c.rax, c.rax));
      Run(c.(pc := c.pc + 1, zf := a == 0, sf := a < 0, of := false, cf := false))
    case Lbl(_) => Run(c.(pc := c.pc + 1))
    case JmpTo(l) => Go(text, c, l)
    case Je(l) => if Holds(CE, c) then Go(text, c, l) else Run(c.(pc := c.pc + 1))
    case Jne(l) => if Holds(CNE, c) then Go(text, c, l) else Run(c.(pc := c.pc + 1))
    case PushRbp => Push(c, c.rbp)
    case MovRspRbp => Run(c.(pc := c.pc + 1, rbp := c.rsp))
    case SubRsp(n) => Run(c.(pc := c.pc + 1, rsp := c.rsp - n))
    case Leave =>
      if InBounds(c.mem, c.rbp, 8)
      then Run(c.(pc := c.pc + 1, rsp := c.rbp + 8, rbp := DecodeS(Read(c.mem, c.rbp, 8))))
      else Fault
    case Retq =>
      if InBounds(c.mem, c.rsp, 8) then Returned(c.(rsp := c.rsp + 8), DecodeS(Read(c.mem, c.rsp, 8))) else Fault
  }

  function CpuStep(text: seq<Asm>, c: Cpu): Outcome {
    if c.pc < |text| then Effect(text, text[c.pc], c) else Fault
  }

  function CpuSteps(text: seq<Asm>, c: Cpu, k: nat): Outcome
    decreases k
  {
    if k == 0 then Run(c)
    else match CpuStep(text, c)
      case Run(c1) => CpuSteps(text, c1, k - 1)
      case r => r
  }

  lemma {:induction false} CpuAdd(text: seq<Asm>, c: Cpu, j: nat, k: nat)
    requires CpuSteps(text, c, j).Run?
    ensures CpuSteps(text, c, j + k) == CpuSteps(text, CpuSteps(text, c, j).c, k)
    decreases j
  {
    hide CpuStep;
    if j > 0 {
      CpuAdd(text, CpuStep(text, c).c, j - 1, k);
    }
  }

  /** One more step. */
  lemma Next(text: seq<Asm>, c: Cpu, k: nat)
    requires CpuSteps(text, c, k).Run?
    ensures CpuSteps(text, c, k + 1) == CpuStep(text, CpuSteps(text, c, k).c)
  {
    hide Effect;
    var c1 := CpuSteps(text, c, k).c;
    CpuAdd(text, c, k, 1);
    assert CpuSteps(text, c1, 1) == CpuStep(text, c1) by {
      match CpuStep(text, c1)
      case Run(c2) => assert CpuSteps(text, c2, 0) == Run(c2);
      case _ =>
    }
  }

  lemma {:induction false} CpuRunningBefore(text: seq<Asm>, c: Cpu, j: nat, k: nat)
    requires j <= k && CpuSteps(text, c, k).Run?
    ensures CpuSteps(text, c, j).Run?
    decreases j
  {
    hide Effect;
    if j > 0 {
      CpuRunningBefore(text, CpuStep(text, c).c, j - 1, k - 1);
    }
  }

  /** Once the processor has left the function, nothing changes. */
  lemma {:induction false} CpuStoppedStays(text: seq<Asm>, c: Cpu, j: nat, k: nat)
    requires j <= k && !CpuSteps(text, c, j).Run?
    ensures CpuSteps(text, c, k) == CpuSteps(text, c, j)
    decreases j
  {
    hide Effect;
    match CpuStep(text, c)
    case Run(c1) => CpuStoppedStays(text, c1, j - 1, k - 1);
    case _ =>
  }

  // ----- what the flags mean -----

  /** `cmpq` followed by a condition compares; the signed conditions need SF and OF. */
  lemma CompareFlags(a: int, b: int)
    requires Int64(a) && Int64(b)
    ensures Wrap64(a - b) == 0 <==> a == b
    ensures (Wrap64(a - b) < 0) != !Int64(a - b) <==> a < b
  {
  }

  lemma {:induction false} AndSelf(n: nat, x: int)
    requires -Pow2(n) <= x < Pow2(n)
    ensures Bitwise(BitAnd, n, x, x) == x
  {
    if n > 0 {
      AndSelf(n - 1, x / 2);
    }
  }

  /** `testq %rax, %rax` sets ZF exactly for zero. */
  lemma TestFlag(a: int)
    requires Int64(a)
    ensures Wrap64(Bitwise(BitAnd, 63, a, a)) == a
  {
    Pow63();
    AndSelf(63, a);
  }

  // ----- effects of the instructions between registers -----

  /** The flags after `cmpq %rcx, %rax`. */
  function Compared(c: Cpu): Cpu {
    var d := c.rax - c.rcx;
    c.(pc := c.pc + 1, zf := Wrap64(d) == 0, sf := Wrap64(d) < 0, of := !Int64(d), cf := U64(c.rax) < U64(c.rcx))
  }

  /** `cmpq; setcc %al; movzbq %al, %rax`. */
  lemma CompareEffects(text: seq<Asm>, cc: Cond, c: Cpu)
    ensures Effect(text, Cmp, c) == Run(Compared(c))
    ensures Effect(text, SetCC(cc), c) == Run(Put(c, RAX, c.rax - c.rax % 256 + Bool(Holds(cc, c))))
    ensures Effect(text, Movzb, c) == Run(Put(c, RAX, c.rax % 256))
  {
  }

  lemma CqtoEffect(text: seq<Asm>, c: Cpu)
    ensures Effect(text, Cqto, c) == Run(Put(c, RDX, if c.rax < 0 then -1 else 0))
  {
  }

  /**
   After `cqto` the dividend is %rax itself. `idivq` leaves the quotient and the remainder of C, and
   traps for a zero divisor and for the one quotient that does not fit.
   */
  lemma IdivEffect(text: seq<Asm>, c: Cpu, q: int, r: int)
    requires Int64(c.rax) && Int64(c.rcx) && c.rdx == if c.rax < 0 then -1 else 0
    ensures c.rcx == 0 || (c.rax == -0x8000_0000_0000_0000 && c.rcx == -1) ==> Effect(text, Idiv, c) == Fault
    ensures Truncated(c.rax, c.rcx, q, r) && !(c.rax == -0x8000_0000_0000_0000 && c.rcx == -1) ==>
              Effect(text, Idiv, c) == Run(c.(pc := c.pc + 1, rax := q, rdx := r))
  {
    hide TruncDiv, TruncMod;
    assert c.rdx * 0x1_0000_0000_0000_0000 + U64(c.rax) == c.rax;
    if c.rcx != 0 {
      TruncDivides(c.rax, c.rcx);
      TruncatedFits(c.rax, c.rcx, TruncDiv(c.rax, c.rcx), TruncMod(c.rax, c.rcx), 0x8000_0000_0000_0000);
    }
    if Truncated(c.rax, c.rcx, q, r) {
      TruncatedIs(c.rax, c.rcx, q, r);
    }
  }

  lemma ExtEffect(text: seq<Asm>, w: nat, signed: bool, c: Cpu)
    ensures Effect(text, ExtRax(w, signed), c) == Run(Put(c, RAX, Extend(signed, Encode(w, c.rax))))
  {
  }

  /** `testq` and the branches on ZF. */
  lemma TestEffect(text: seq<Asm>, l: nat, c: Cpu)
    requires Int64(c.rax)
    ensures Effect(text, Test, c) == Run(c.(pc := c.pc + 1, zf := c.rax == 0, sf := c.rax < 0, of := false, cf := false))
    ensures Effect(text, Je(l), c) == if c.zf then Go(text, c, l) else Run(c.(pc := c.pc + 1))
    ensures Effect(text, Jne(l), c) == if !c.zf then Go(text, c, l) else Run(c.(pc := c.pc + 1))
  {
    TestFlag(c.rax);
  }

  lemma AluEffect(text: seq<Asm>, op: AluOp, c: Cpu)
    ensures Effect(text, Alu(op), c) == Run(Put(c, RAX, AluVal(op, c.rcx, c.rax)))
  {
  }
}
