/**
 Instruction selection for integer code over the stack-slot layout: `Select` is the text of one
 IR instruction, and `Writer` the stateful code that emits it.
 */
module Codegen {
  import opened Wrappers
  import opened Bits
  import opened Ir
  import opened RegAlloc
  import opened X86

  /** What the allocator hands over. */
  datatype Layout = Layout(slot: seq<int>, off: seq<int>, frameSize: int)

  /** The return type: its size and signedness; a size other than 1, 2 and 4 needs no normalization. */
  datatype Scalar = Scalar(size: nat, signed: bool)

  function At(xs: seq<int>, i: nat): int {
    if i < |xs| then xs[i] else 0
  }

  function LoadReg(ra: Layout, v: Operand, r: Reg): Asm {
    match v
    case Temp(t) => LoadSlot(At(ra.slot, t), r)
    case Imm(c) => MovImm(c, r)
    case Global(name) => LeaGlobal(name, r)
  }

  function StoreReg(ra: Layout, t: nat, r: Reg): Asm {
    StoreSlot(r, At(ra.slot, t))
  }

  function AluFor(op: BinOp): Option<AluOp> {
    match op
    case Add => Some(AddQ)
    case Sub => Some(SubQ)
    case Mul => Some(ImulQ)
    case And => Some(AndQ)
    case Or => Some(OrQ)
    case Xor => Some(XorQ)
    case Shl => Some(SalQ)
    case Shr => Some(SarQ)
    case _ => None
  }

  /** The condition of a comparison; unsigned operands use the carry flag. */
  function CondFor(op: BinOp, unsigned: bool): Cond {
    match op
    case Eq => CE
    case Ne => CNE
    case Lt => if unsigned then CB else CL
    case Le => if unsigned then CBE else CLE
    case Gt => if unsigned then CA else CG
    case _ => if unsigned then CAE else CGE
  }

  function SelectBin(ra: Layout, op: BinOp, dst: nat, a: Operand, b: Operand, unsigned: bool): seq<Asm> {
    if op == Div || op == Mod then
      [LoadReg(ra, a, RAX), Cqto, LoadReg(ra, b, RCX), Idiv, StoreReg(ra, dst, if op == Div then RAX else RDX)]
    else if AluFor(op).Some? then
      [LoadReg(ra, a, RAX), LoadReg(ra, b, RCX), Alu(AluFor(op).value), StoreReg(ra, dst, RAX)]
    else
      [LoadReg(ra, a, RAX), LoadReg(ra, b, RCX), Cmp, SetCC(CondFor(op, unsigned)), Movzb, StoreReg(ra, dst, RAX)]
  }

  /** A conversion of %rax, when the size calls for one. */
  function Convert(narrow: bool, w: nat, signed: bool): seq<Asm> {
    if narrow then [ExtRax(w, signed)] else []
  }

  function Select(ra: Layout, ret: Scalar, i: Instr): seq<Asm> {
    match i
    case Alloca(dst, _, _) => [Lea(At(ra.off, dst), RAX), StoreReg(ra, dst, RAX)]
    case Load(dst, addr, size, signed) =>
      [LoadReg(ra, addr, RAX), LoadMem(Width(size), signed), StoreReg(ra, dst, RDX)]
    case Store(addr, src, size) => [LoadReg(ra, addr, R10), LoadReg(ra, src, RAX), StoreMem(Width(size))]
    case Copy(dst, src) => [LoadReg(ra, src, RAX), StoreReg(ra, dst, RAX)]
    case Bin(op, dst, a, b, unsigned) => SelectBin(ra, op, dst, a, b, unsigned)
    case Un(op, dst, a) => [LoadReg(ra, a, RAX), if op == Neg then NegQ else NotQ, StoreReg(ra, dst, RAX)]
    case Sext(dst, src, size) =>
      [LoadReg(ra, src, RAX)] + Convert(Width(size) < 8, Width(size), true) + [StoreReg(ra, dst, RAX)]
    case Zext(dst, src, size) =>
      // size 4 counts on a 32-bit move having cleared the upper half already
      [LoadReg(ra, src, RAX)] + Convert(Width(size) < 4, Width(size), false) + [StoreReg(ra, dst, RAX)]
    case Trunc(dst, src, size, signed) =>
      [LoadReg(ra, src, RAX)] + Convert(Width(size) < 8, Width(size), signed) + [StoreReg(ra, dst, RAX)]
    case Label(l) => [Lbl(l)]
    case Jmp(l) => [JmpTo(l)]
    case Jz(c, l) => [LoadReg(ra, c, RAX), Test, Je(l)]
    case Jnz(c, l) => [LoadReg(ra, c, RAX), Test, Jne(l)]
    case Ret(v) =>
      (if v.Some? then [LoadReg(ra, v.value, RAX)] + Convert(Width(ret.size) < 8, Width(ret.size), ret.signed) else [])
      + [Leave, Retq]
  }

  function Prologue(ra: Layout): seq<Asm> {
    [PushRbp, MovRspRbp, SubRsp(ra.frameSize)]
  }

  /** The text of the first `k` instructions. */
  function Blocks(ra: Layout, ret: Scalar, code: seq<Instr>, k: nat): seq<Asm>
    requires k <= |code|
  {
    if k == 0 then [] else Blocks(ra, ret, code, k - 1) + Select(ra, ret, code[k - 1])
  }

  function Text(ra: Layout, ret: Scalar, code: seq<Instr>): seq<Asm> {
    Prologue(ra) + Blocks(ra, ret, code, |code|) + [Leave, Retq]
  }

  /** The output stream of the code generator. */
  class Writer {
    var text: seq<Asm>

    constructor ()
      ensures text == []
    {
      text := [];
    }

    method Emit(a: Asm)
      modifies this
      ensures text == old(text) + [a]
    {
      text := text + [a];
    }

    method EmitBin(ra: Layout, i: Instr)
      requires i.Bin?
      modifies this
      ensures text == old(text) + SelectBin(ra, i.op, i.dst, i.a, i.b, i.unsigned)
    {
      Emit(LoadReg(ra, i.a, RAX));
      if i.op == Div || i.op == Mod {
        Emit(Cqto);
        Emit(LoadReg(ra, i.b, RCX));
        Emit(Idiv);
        Emit(StoreReg(ra, i.dst, if i.op == Div then RAX else RDX));
      } else {
        Emit(LoadReg(ra, i.b, RCX));
        if AluFor(i.op).Some? {
          Emit(Alu(AluFor(i.op).value));
        } else {
          Emit(Cmp);
          Emit(SetCC(CondFor(i.op, i.unsigned)));
          Emit(Movzb);
        }
        Emit(StoreReg(ra, i.dst, RAX));
      }
    }

    method EmitConversion(ra: Layout, dst: nat, src: Operand, narrow: bool, w: nat, signed: bool)
      modifies this
      ensures text == old(text) + ([LoadReg(ra, src, RAX)] + Convert(narrow, w, signed) + [StoreReg(ra, dst, RAX)])
    {
      Emit(LoadReg(ra, src, RAX));
      if narrow {
        Emit(ExtRax(w, signed));
      }
      Emit(StoreReg(ra, dst, RAX));
    }

    method EmitRet(ra: Layout, ret: Scalar, v: Option<Operand>)
      modifies this
      ensures text == old(text) + Select(ra, ret, Ret(v))
    {
      if v.Some? {
        Emit(LoadReg(ra, v.value, RAX));
        if Width(ret.size) < 8 {
          Emit(ExtRax(Width(ret.size), ret.signed));
        }
      }
      Emit(Leave);
      Emit(Retq);
    }

    /** The selection switch, for one instruction. */
    method EmitInstr(ra: Layout, ret: Scalar, i: Instr)
      modifies this
      ensures text == old(text) + Select(ra, ret, i)
    {
      match i
      case Alloca(dst, _, _) =>
        Emit(Lea(At(ra.off, dst), RAX));
        Emit(StoreReg(ra, dst, RAX));
      case Load(dst, addr, size, signed) =>
        Emit(LoadReg(ra, addr, RAX));
        Emit(LoadMem(Width(size), signed));
        Emit(StoreReg(ra, dst, RDX));
      case Store(addr, src, size) =>
        Emit(LoadReg(ra, addr, R10));
        Emit(LoadReg(ra, src, RAX));
        Emit(StoreMem(Width(size)));
      case Copy(dst, src) =>
        Emit(LoadReg(ra, src, RAX));
        Emit(StoreReg(ra, dst, RAX));
      case Bin(_, _, _, _, _) => EmitBin(ra, i);
      case Un(op, dst, a) =>
        Emit(LoadReg(ra, a, RAX));
        Emit(if op == Neg then NegQ else NotQ);
        Emit(StoreReg(ra, dst, RAX));
      case Sext(dst, src, size) => EmitConversion(ra, dst, src, Width(size) < 8, Width(size), true);
      case Zext(dst, src, size) => EmitConversion(ra, dst, src, Width(size) < 4, Width(size), false);
      case Trunc(dst, src, size, signed) => EmitConversion(ra, dst, src, Width(size) < 8, Width(size), signed);
      case Label(l) => Emit(Lbl(l));
      case Jmp(l) => Emit(JmpTo(l));
      case Jz(c, l) =>
        Emit(LoadReg(ra, c, RAX));
        Emit(Test);
        Emit(Je(l));
      case Jnz(c, l) =>
        Emit(LoadReg(ra, c, RAX));
        Emit(Test);
        Emit(Jne(l));
      case Ret(v) => EmitRet(ra, ret, v);
    }

    /** `codegen_func`: allocate, then the prologue, every instruction and the epilogue. */
    method CodegenFunc(ret: Scalar, code: seq<Instr>, n: nat) returns (ra: Layout)
      requires forall i :: 0 <= i < |code| && code[i].Alloca? ==> code[i].dst < n
      modifies this
      ensures Allocated(code, n, ra.slot, ra.off, ra.frameSize)
      ensures text == old(text) + Text(ra, ret, code)
    {
      hide Select, Allocated;
      var slot, off, frameSize := RegallocRun(code, n);
      ra := Layout(slot[..], off[..], frameSize);
      Emit(PushRbp);
      Emit(MovRspRbp);
      Emit(SubRsp(ra.frameSize));
      for i := 0 to |code|
        invariant text == old(text) + (Prologue(ra) + Blocks(ra, ret, code, i))
      {
        EmitInstr(ra, ret, code[i]);
      }
      Emit(Leave);
      Emit(Retq);
    }
  }
}
