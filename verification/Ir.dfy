/**
 The three-address code and the machine that runs it: an unlimited map of 64-bit temporaries,
 plus byte memory that holds only the alloca regions. `base[t]` is the address of the region
 that the `IR_ALLOCA` with destination `t` names. An access outside the regions, a division
 that `idivq` would trap on, and a read of an unset temporary leave the machine stuck.
 */
module Ir {
  import opened Wrappers
  import opened Bits

  /** An `Imm` is a `long long`. A `Global` names a symbol outside the function: it has no value here. */
  datatype Operand = Temp(id: nat) | Imm(val: int) | Global(name: string)

  datatype BinOp =
    | Add | Sub | Mul | Div | Mod
    | And | Or | Xor
    | Shl | Shr
    | Eq | Ne | Lt | Le | Gt | Ge

  datatype UnOp = Neg | Not

  datatype Instr =
    | Alloca(dst: nat, size: nat, align: nat)
    | Load(dst: nat, addr: Operand, size: nat, signed: bool)
    | Store(addr: Operand, src: Operand, size: nat)
    | Copy(dst: nat, src: Operand)
    | Bin(op: BinOp, dst: nat, a: Operand, b: Operand, unsigned: bool)
    | Un(uop: UnOp, dst: nat, a: Operand)
    | Sext(dst: nat, src: Operand, size: nat)
    | Zext(dst: nat, src: Operand, size: nat)
    | Trunc(dst: nat, src: Operand, size: nat, signed: bool)
    | Label(l: nat)
    | Jmp(l: nat)
    | Jz(cond: Operand, l: nat)
    | Jnz(cond: Operand, l: nat)
    | Ret(v: Option<Operand>)

  datatype State = State(pc: nat, temps: map<nat, int>, mem: Mem)

  /** A halted machine keeps its last state. */
  datatype Status = Run(s: State) | Halt(ret: Option<int>, last: State) | Stuck

  /** Bytes moved by an access whose type has size `size`: anything but 1, 2 and 4 moves 8. */
  function Width(size: nat): (w: nat)
    ensures w == 1 || w == 2 || w == 4 || w == 8
  {
    if size == 1 || size == 2 || size == 4 then size else 8
  }

  function Value(s: State, o: Operand): Option<int> {
    match o
    case Imm(c) => if Int64(c) then Some(c) else None
    case Temp(t) => if t in s.temps then Some(s.temps[t]) else None
    case Global(_) => None
  }

  /** 64-bit integer operations; comparisons give 0 or 1. `None` is a trap. */
  function BinVal(op: BinOp, unsigned: bool, a: int, b: int): Option<int> {
    var (x, y) := if unsigned then (U64(a), U64(b)) else (a, b);
    match op
    case Add => Some(Wrap64(a + b))
    case Sub => Some(Wrap64(a - b))
    case Mul => Some(Wrap64(a * b))
    case Div => if b == 0 || !Int64(TruncDiv(a, b)) then None else Some(TruncDiv(a, b))
    case Mod => if b == 0 || !Int64(TruncDiv(a, b)) then None else Some(Wrap64(TruncMod(a, b)))
    case And => Some(Wrap64(Bitwise(BitAnd, 63, a, b)))
    case Or => Some(Wrap64(Bitwise(BitOr, 63, a, b)))
    case Xor => Some(Wrap64(Bitwise(BitXor, 63, a, b)))
    case Shl => Some(Wrap64(a * Pow2(b % 64)))
    case Shr => Some(Wrap64(a / Pow2(b % 64)))
    case Eq => Some(Bool(a == b))
    case Ne => Some(Bool(a != b))
    case Lt => Some(Bool(x < y))
    case Le => Some(Bool(x <= y))
    case Gt => Some(Bool(x > y))
    case Ge => Some(Bool(x >= y))
  }

  /** The quotient and the remainder are those of C; only the least value by -1 traps. */
  lemma DivideValues(unsigned: bool, a: int, b: int, q: int, r: int)
    requires Int64(a) && Int64(b) && Truncated(a, b, q, r)
    ensures var ok := !(a == -0x8000_0000_0000_0000 && b == -1);
            && BinVal(Div, unsigned, a, b) == (if ok then Some(q) else None)
            && BinVal(Mod, unsigned, a, b) == (if ok then Some(r) else None)
  {
    hide TruncDiv, TruncMod, Bitwise;
    TruncatedIs(a, b, q, r);
    TruncatedFits(a, b, q, r, 0x8000_0000_0000_0000);
  }

  function UnVal(op: UnOp, a: int): int {
    match op
    case Neg => Wrap64(-a)
    case Not => Wrap64(-a - 1)
  }

  /** The position of `Label(l)` at or after `from`, or `|code|` when there is none. */
  function FindFrom(code: seq<Instr>, l: nat, from: nat): (p: nat)
    requires from <= |code|
    ensures from <= p <= |code|
    ensures p < |code| ==> code[p] == Label(l)
    ensures forall i :: from <= i < p ==> code[i] != Label(l)
    decreases |code| - from
  {
    if from == |code| then |code|
    else if code[from] == Label(l) then from
    else FindFrom(code, l, from + 1)
  }

  function Find(code: seq<Instr>, l: nat): nat {
    FindFrom(code, l, 0)
  }

  function Jump(code: seq<Instr>, s: State, l: nat): Status {
    if Find(code, l) < |code| then Run(s.(pc := Find(code, l))) else Stuck
  }

  function Set(s: State, t: nat, v: int): Status {
    Run(s.(pc := s.pc + 1, temps := s.temps[t := v]))
  }

  function Step(code: seq<Instr>, base: seq<int>, s: State): Status {
    if s.pc >= |code| then Halt(None, s)
    else match code[s.pc]
      case Alloca(dst, _, _) =>
        if dst < |base| then Set(s, dst, base[dst]) else Stuck
      case Load(dst, addr, size, signed) =>
        var a := Value(s, addr);
        if a.Some? && InBounds(s.mem, a.value, Width(size))
        then Set(s, dst, if Width(size) == 8 then DecodeS(Read(s.mem, a.value, 8))
                         else Extend(signed, Read(s.mem, a.value, Width(size))))
        else Stuck
      case Store(addr, src, size) =>
        var a, v := Value(s, addr), Value(s, src);
        if a.Some? && v.Some? && InBounds(s.mem, a.value, Width(size))
        then Run(s.(pc := s.pc + 1, mem := Write(s.mem, a.value, Encode(Width(size), v.value))))
        else Stuck
      case Copy(dst, src) =>
        var v := Value(s, src);
        if v.Some? then Set(s, dst, v.value) else Stuck
      case Bin(op, dst, a, b, unsigned) =>
        var x, y := Value(s, a), Value(s, b);
        if x.Some? && y.Some? && BinVal(op, unsigned, x.value, y.value).Some?
        then Set(s, dst, BinVal(op, unsigned, x.value, y.value).value)
        else Stuck
      case Un(op, dst, a) =>
        var x := Value(s, a);
        if x.Some? then Set(s, dst, UnVal(op, x.value)) else Stuck
      case Sext(dst, src, size) =>
        var v := Value(s, src);
        if v.Some? then Set(s, dst, DecodeS(Encode(Width(size), v.value))) else Stuck
      case Zext(dst, src, size) =>
        var v := Value(s, src);
        if v.Some? then Set(s, dst, if Width(size) == 8 then v.value
                                    else DecodeU(Encode(Width(size), v.value))) else Stuck
      case Trunc(dst, src, size, signed) =>
        var v := Value(s, src);
        if v.Some? then Set(s, dst, if Width(size) == 8 then v.value
                                    else Extend(signed, Encode(Width(size), v.value))) else Stuck
      case Label(_) => Run(s.(pc := s.pc + 1))
      case Jmp(l) => Jump(code, s, l)
      case Jz(c, l) =>
        var v := Value(s, c);
        if v.None? then Stuck
        else if v.value == 0 then Jump(code, s, l) else Run(s.(pc := s.pc + 1))
      case Jnz(c, l) =>
        var v := Value(s, c);
        if v.None? then Stuck
        else if v.value != 0 then Jump(code, s, l) else Run(s.(pc := s.pc + 1))
      case Ret(o) =>
        if o.None? then Halt(None, s)
        else if Value(s, o.value).Some? then Halt(Value(s, o.value), s) else Stuck
  }

  /** `k` steps; a halted or stuck machine stays as it is. */
  function Steps(code: seq<Instr>, base: seq<int>, s: State, k: nat): Status
    decreases k
  {
    if k == 0 then Run(s)
    else match Step(code, base, s)
      case Run(s1) => Steps(code, base, s1, k - 1)
      case Halt(r, last) => Halt(r, last)
      case Stuck => Stuck
  }

  lemma {:induction false} StepsAdd(code: seq<Instr>, base: seq<int>, s: State, j: nat, k: nat)
    requires Steps(code, base, s, j).Run?
    ensures Steps(code, base, s, j + k) == Steps(code, base, Steps(code, base, s, j).s, k)
    decreases j
  {
    if j > 0 {
      StepsAdd(code, base, Step(code, base, s).s, j - 1, k);
    }
  }

  /** A machine that is still running after `k` steps was running after every earlier one. */
  lemma {:induction false} RunningBefore(code: seq<Instr>, base: seq<int>, s: State, j: nat, k: nat)
    requires j <= k && Steps(code, base, s, k).Run?
    ensures Steps(code, base, s, j).Run?
    decreases j
  {
    if j > 0 {
      RunningBefore(code, base, Step(code, base, s).s, j - 1, k - 1);
    }
  }

  /** Once the machine has stopped, running it longer changes nothing. */
  lemma {:induction false} StoppedStays(code: seq<Instr>, base: seq<int>, s: State, j: nat, k: nat)
    requires j <= k && !Steps(code, base, s, j).Run?
    ensures Steps(code, base, s, k) == Steps(code, base, s, j)
    decreases j
  {
    match Step(code, base, s)
    case Run(s1) => StoppedStays(code, base, s1, j - 1, k - 1);
    case _ =>
  }
}
