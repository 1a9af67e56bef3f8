/**
 Passing arguments: the caller's three passes over the arguments and the callee's own computation
 of where each parameter is. A token stands for the contents of one eightbyte of one argument.
 */
module CallConv {
  import opened Wrappers
  import opened Bits
  import opened RegAlloc
  import opened Types
  import opened Layout
  import opened CompleteTypes
  import opened Classify

  const INT_REGS := 6
  const SSE_REGS := 8

  /** An argument or parameter as the passes see it. */
  datatype Arg = Arg(classes: seq<Class>, size: nat, aggregate: bool)

  datatype Token = Part(arg: nat, eightbyte: nat) | SretPointer

  /** Where one eightbyte of a parameter is found; stack offsets are from the callee's %rbp. */
  datatype Where = IntReg(i: nat) | SseReg(i: nat) | OnStack(off: int)

  function ArgOf(t: Type): Arg {
    Arg(AbiClassify(t).classes, if Sizeof(t) > 0 then Sizeof(t) else 0, t.Struct? || t.Union?)
  }

  function Eightbytes(a: Arg): nat {
    (a.size + 7) / 8
  }

  predicate ByMemory(a: Arg) {
    Memory in a.classes
  }

  /** What classification guarantees: `ClassifyExact` and scalars of at most 8 bytes. */
  predicate ArgOk(a: Arg) {
    && a.size < LIMIT
    && (!ByMemory(a) ==>
          && |a.classes| == Eightbytes(a)
          && (forall j :: 0 <= j < |a.classes| ==> a.classes[j] == Integer || a.classes[j] == Sse)
          && (!a.aggregate ==> |a.classes| == 1))
    && (ByMemory(a) ==> a.aggregate)
  }

  predicate ArgsOk(args: seq<Arg>) {
    forall k :: 0 <= k < |args| ==> ArgOk(args[k])
  }

  /** Every integer, pointer, float, double and long-double-free aggregate type is such an argument. */
  lemma TypesAreArgs(t: Type)
    requires Flat(t) && (t.Scalar? || t.Struct? || t.Union?)
    ensures ArgOk(ArgOf(t)) && (ByMemory(ArgOf(t)) <==> Sizeof(t) > 16)
  {
    SizeNonNegative(t);
    if Sizeof(t) > 0 {
      hide HasLeaf, Flat;
      ClassifyExact(t);
      assert ByMemory(ArgOf(t)) <==> InMemory(AbiClassify(t));
    }
    if t.Scalar? {
      assert t.kind != LDoubleK;
    }
  }

  /** How many of the first `j` classes are `c`. */
  function Count(cs: seq<Class>, j: nat, c: Class): (n: nat)
    requires j <= |cs|
    ensures n <= j
  {
    if j == 0 then 0 else Count(cs, j - 1, c) + if cs[j - 1] == c then 1 else 0
  }

  function Ints(a: Arg): nat { Count(a.classes, |a.classes|, Integer) }

  function Sses(a: Arg): nat { Count(a.classes, |a.classes|, Sse) }

  datatype ArgState = ArgState(ints: nat, sses: nat, stack: nat)

  /** The next argument goes to registers when it is not a memory one and all of it fits. */
  predicate Fits(ints: nat, sses: nat, a: Arg) {
    !ByMemory(a) && ints + Ints(a) <= INT_REGS && sses + Sses(a) <= SSE_REGS
  }

  /** The state after the first `k` arguments. */
  function State(sret: bool, args: seq<Arg>, k: nat): ArgState
    requires k <= |args|
  {
    if k == 0 then ArgState(if sret then 1 else 0, 0, 16)
    else
      var st, a := State(sret, args, k - 1), args[k - 1];
      if Fits(st.ints, st.sses, a) then ArgState(st.ints + Ints(a), st.sses + Sses(a), st.stack)
      else ArgState(st.ints, st.sses, st.stack + 8 * Eightbytes(a))
  }

  predicate InRegs(sret: bool, args: seq<Arg>, k: nat)
    requires k < |args|
  {
    Fits(State(sret, args, k).ints, State(sret, args, k).sses, args[k])
  }

  /** Where the callee reads eightbyte `j` of parameter `k`. */
  function CalleeReads(sret: bool, args: seq<Arg>, k: nat, j: nat): Where
    requires k < |args| && j < Eightbytes(args[k]) && ArgOk(args[k])
  {
    var st, a := State(sret, args, k), args[k];
    if !InRegs(sret, args, k) then OnStack(st.stack + 8 * j)
    else if a.classes[j] == Integer then IntReg(st.ints + Count(a.classes, j, Integer))
    else SseReg(st.sses + Count(a.classes, j, Sse))
  }

  lemma RoundedSize(size: nat)
    requires size < LIMIT
    ensures AlignUp(size, 8) == 8 * ((size + 7) / 8)
  {
    MaskIsLeast(size, 8);
  }

  method CountClasses(cs: seq<Class>) returns (n: nat, m: nat)
    ensures n == Count(cs, |cs|, Integer) && m == Count(cs, |cs|, Sse)
  {
    n, m := 0, 0;
    for j := 0 to |cs|
      invariant n == Count(cs, j, Integer) && m == Count(cs, j, Sse)
    {
      if cs[j] == Integer { n := n + 1; }
      else if cs[j] == Sse { m := m + 1; }
    }
  }

  /** `compute_arg_state`: the callee's loop over the parameters before `upTo`. */
  method ComputeArgState(sret: bool, params: seq<Arg>, upTo: nat) returns (st: ArgState)
    requires upTo <= |params| && ArgsOk(params)
    ensures st == State(sret, params, upTo)
  {
    hide AlignUp, Count;
    var ints, sses, stack := if sret then 1 else 0, 0, 16;
    for i := 0 to upTo
      invariant ints >= 0 && sses >= 0 && stack >= 0 && ArgState(ints, sses, stack) == State(sret, params, i)
    {
      var p := params[i];
      RoundedSize(p.size);
      if Memory in p.classes {
        stack := stack + AlignUp(p.size, 8);
      } else {
        var n, m := CountClasses(p.classes);
        if ints + n <= INT_REGS && sses + m <= SSE_REGS {
          ints, sses := ints + n, sses + m;
        } else {
          stack := stack + AlignUp(p.size, 8);
        }
      }
    }
    st := ArgState(ints, sses, stack);
  }

  /** The caller's first pass: how many bytes of stack arguments there are. */
  method CountStackBytes(sret: bool, args: seq<Arg>) returns (bytes: nat)
    requires ArgsOk(args)
    ensures bytes == State(sret, args, |args|).stack - 16
  {
    hide AlignUp, Count;
    var ints, sses := if sret then 1 else 0, 0;
    bytes := 0;
    for a := 0 to |args|
      invariant ints >= 0 && sses >= 0 && ArgState(ints, sses, 16 + bytes) == State(sret, args, a)
    {
      RoundedSize(args[a].size);
      if Memory in args[a].classes {
        bytes := bytes + AlignUp(args[a].size, 8);
      } else {
        var n, m := CountClasses(args[a].classes);
        if ints + n <= INT_REGS && sses + m <= SSE_REGS {
          ints, sses := ints + n, sses + m;
        } else {
          bytes := bytes + AlignUp(args[a].size, 8);
        }
      }
    }
  }

  /** The second pass asks for each argument by simulating all the earlier ones again. */
  method GoesToStack(sret: bool, args: seq<Arg>, a: nat) returns (spilled: bool)
    requires a < |args|
    ensures spilled <==> !InRegs(sret, args, a)
  {
    hide Count;
    if Memory in args[a].classes { return true; }
    var n, m := CountClasses(args[a].classes);
    var ints, sses := if sret then 1 else 0, 0;
    for k := 0 to a
      invariant ints == State(sret, args, k).ints && sses == State(sret, args, k).sses
    {
      if Memory !in args[k].classes {
        var ki, ks := CountClasses(args[k].classes);
        if ints + ki <= INT_REGS && sses + ks <= SSE_REGS {
          ints, sses := ints + ki, sses + ks;
        }
      }
    }
    spilled := ints + n > INT_REGS || sses + m > SSE_REGS;
  }

  // ----- the arguments' places do not collide -----

  lemma {:induction false} CountGrows(cs: seq<Class>, i: nat, j: nat, c: Class)
    requires i <= j <= |cs|
    ensures Count(cs, i, c) <= Count(cs, j, c)
    ensures i < j && cs[i] == c ==> Count(cs, i, c) < Count(cs, j, c)
    decreases j
  {
    if i < j {
      CountGrows(cs, i, j - 1, c);
    }
  }

  lemma {:induction false} StateGrows(sret: bool, args: seq<Arg>, j: nat, k: nat)
    requires j <= k <= |args|
    ensures var s, t := State(sret, args, j), State(sret, args, k);
            s.ints <= t.ints <= INT_REGS && s.sses <= t.sses <= SSE_REGS && s.stack <= t.stack
    decreases k
  {
    hide Count;
    if j < k {
      StateGrows(sret, args, j, k - 1);
    } else if k > 0 {
      StateGrows(sret, args, k - 1, k - 1);
    }
  }

  /** An eightbyte's place is between the states before and after its argument. */
  lemma PlaceBounds(sret: bool, args: seq<Arg>, k: nat, j: nat)
    requires k < |args| && ArgOk(args[k]) && j < Eightbytes(args[k])
    ensures var s, t := State(sret, args, k), State(sret, args, k + 1);
            match CalleeReads(sret, args, k, j)
            case IntReg(i) => s.ints <= i < t.ints <= INT_REGS
            case SseReg(i) => s.sses <= i < t.sses <= SSE_REGS
            case OnStack(off) => s.stack <= off && off + 8 <= t.stack
  {
    var a := args[k];
    StateGrows(sret, args, k, k + 1);
    if InRegs(sret, args, k) {
      CountGrows(a.classes, j, |a.classes|, Integer);
      CountGrows(a.classes, j, |a.classes|, Sse);
    }
  }

  /** Two eightbytes of the arguments never share a register or a stack slot. */
  lemma PlacesDistinct(sret: bool, args: seq<Arg>, k1: nat, j1: nat, k2: nat, j2: nat)
    requires ArgsOk(args) && k1 <= k2 < |args| && j1 < Eightbytes(args[k1]) && j2 < Eightbytes(args[k2])
    requires k1 < k2 || j1 < j2
    ensures match (CalleeReads(sret, args, k1, j1), CalleeReads(sret, args, k2, j2))
            case (IntReg(i), IntReg(j)) => i < j
            case (SseReg(i), SseReg(j)) => i < j
            case (OnStack(o), OnStack(p)) => o + 8 <= p
            case _ => true
  {
    PlaceBounds(sret, args, k1, j1);
    PlaceBounds(sret, args, k2, j2);
    if k1 < k2 {
      hide State, Count, CalleeReads, ArgOk;
      StateGrows(sret, args, k1 + 1, k2);
    } else if InRegs(sret, args, k1) {
      CountGrows(args[k1].classes, j1, j2, Integer);
      CountGrows(args[k1].classes, j1, j2, Sse);
    }
  }

  /**
   Arguments of one class and one eightbyte each, in order: the first six INTEGER ones or the first
   eight SSE ones are in registers, one each, and the others on the stack from 16(%rbp) on.
   */
  lemma RegistersFirst(args: seq<Arg>, k: nat, c: Class)
    requires (c == Integer || c == Sse) && k < |args|
    requires forall i :: 0 <= i < |args| ==> ArgOk(args[i]) && args[i].classes == [c] && Eightbytes(args[i]) == 1
    ensures CalleeReads(false, args, k, 0) ==
            (if c == Integer then if k < 6 then IntReg(k) else OnStack(16 + 8 * (k - 6))
             else if k < 8 then SseReg(k) else OnStack(16 + 8 * (k - 8)))
  {
    hide ArgOk;
    StateOfOnes(args, k, c);
    OneClass(args[k], c);
  }

  lemma OneClass(a: Arg, c: Class)
    requires a.classes == [c] && (c == Integer || c == Sse)
    ensures Ints(a) == (if c == Integer then 1 else 0) && Sses(a) == (if c == Sse then 1 else 0) && !ByMemory(a)
    ensures Count(a.classes, 0, Integer) == 0 == Count(a.classes, 0, Sse)
  {
  }

  lemma {:induction false} StateOfOnes(args: seq<Arg>, k: nat, c: Class)
    requires (c == Integer || c == Sse) && k <= |args|
    requires forall i :: 0 <= i < |args| ==> args[i].classes == [c] && Eightbytes(args[i]) == 1
    ensures State(false, args, k) ==
            (if c == Integer then ArgState(if k < 6 then k else 6, 0, if k < 6 then 16 else 16 + 8 * (k - 6))
             else ArgState(0, if k < 8 then k else 8, if k < 8 then 16 else 16 + 8 * (k - 8)))
    decreases k
  {
    hide Eightbytes, Count;
    if k > 0 {
      StateOfOnes(args, k - 1, c);
      OneClass(args[k - 1], c);
    }
  }

  // ----- the call -----

  /** What the callee finds: the stack pointer at the call, the stack above it, and the registers. */
  datatype CallSite = CallSite(rsp: int, stack: map<int, Token>, ints: seq<Option<Token>>, sses: seq<Option<Token>>)

  function Bytes(sret: bool, args: seq<Arg>, k: nat): int
    requires k <= |args|
  {
    State(sret, args, |args|).stack - State(sret, args, k).stack
  }

  /** Argument `k` has been pushed: its eightbytes stand where the pushes before it left %rsp. */
  predicate Pushed(sret: bool, args: seq<Arg>, k: nat, rsp0: int, stack: map<int, Token>)
    requires k < |args|
  {
    Stands(stack, rsp0 - Bytes(sret, args, k), k, Eightbytes(args[k]))
  }

  /** The first `n` eightbytes of argument `k` stand on the stack from `at` on. */
  predicate Stands(stack: map<int, Token>, at: int, k: nat, n: nat) {
    forall j {:trigger StandsAt(stack, at, k, j)} :: 0 <= j < n ==> StandsAt(stack, at, k, j)
  }

  /** Eightbyte `j` of argument `k` stands on the stack, the argument starting at `at`. */
  predicate StandsAt(stack: map<int, Token>, at: int, k: nat, j: nat) {
    at + 8 * j in stack && stack[at + 8 * j] == Part(k, j)
  }

  /** One push: the stack pointer moves down and the eightbytes of the argument are copied. */
  method PushArg(a: nat, n: nat, rsp0: int, stack0: map<int, Token>) returns (rsp: int, stack: map<int, Token>)
    ensures rsp == rsp0 - 8 * n
    ensures Stands(stack, rsp, a, n)
    ensures forall x :: x in stack0 && x >= rsp0 ==> x in stack && stack[x] == stack0[x]
  {
    rsp, stack := rsp0 - 8 * n, stack0;
    for j := 0 to n
      invariant Stands(stack, rsp, a, j)
      invariant forall x :: x in stack0 && x >= rsp0 ==> x in stack && stack[x] == stack0[x]
    {
      ghost var stack1 := stack;
      stack := stack[rsp + 8 * j := Part(a, j)];
      forall i | 0 <= i < j + 1
        ensures StandsAt(stack, rsp, a, i)
      {
        assert i < j ==> StandsAt(stack1, rsp, a, i);
      }
    }
  }

  lemma BytesStep(sret: bool, args: seq<Arg>, a: nat)
    requires a < |args|
    ensures Bytes(sret, args, a) ==
            Bytes(sret, args, a + 1) + if InRegs(sret, args, a) then 0 else 8 * Eightbytes(args[a])
  {
    hide Count;
  }

  lemma BytesFall(sret: bool, args: seq<Arg>, j: nat, k: nat)
    requires j <= k <= |args|
    ensures Bytes(sret, args, k) <= Bytes(sret, args, j)
  {
    StateGrows(sret, args, j, k);
    StateGrows(sret, args, k, |args|);
  }

  /** The second pass: last argument first. */
  method PushArgs(sret: bool, args: seq<Arg>, rsp0: int) returns (rsp: int, stack: map<int, Token>)
    requires ArgsOk(args)
    ensures rsp == rsp0 - Bytes(sret, args, 0)
    ensures forall k :: 0 <= k < |args| && !InRegs(sret, args, k) ==> Pushed(sret, args, k, rsp0, stack)
  {
    hide InRegs, Eightbytes, ArgOk, Bytes, Stands;
    rsp, stack := rsp0, map[];
    NoBytes(sret, args);
    for a := |args| downto 0
      invariant rsp == rsp0 - Bytes(sret, args, a)
      invariant forall k :: a <= k < |args| && !InRegs(sret, args, k) ==> Pushed(sret, args, k, rsp0, stack)
    {
      var spilled := GoesToStack(sret, args, a);
      BytesStep(sret, args, a);
      if spilled {
        ghost var rsp1, stack1 := rsp, stack;
        rsp, stack := PushArg(a, Eightbytes(args[a]), rsp, stack);
        forall k | a < k < |args| && !InRegs(sret, args, k)
          ensures Pushed(sret, args, k, rsp0, stack)
        {
          BytesFall(sret, args, a + 1, k);
          StandsKept(stack1, stack, rsp0 - Bytes(sret, args, k), k, Eightbytes(args[k]), rsp1);
        }
      }
    }
  }

  /** Pushing below `floor` moves nothing above it. */
  lemma StandsKept(stack: map<int, Token>, stack1: map<int, Token>, at: int, k: nat, n: nat, floor: int)
    requires Stands(stack, at, k, n) && floor <= at
    requires forall x :: x in stack && x >= floor ==> x in stack1 && stack1[x] == stack[x]
    ensures Stands(stack1, at, k, n)
  {
    forall j | 0 <= j < n
      ensures StandsAt(stack1, at, k, j)
    {
      assert StandsAt(stack, at, k, j);
      assert at + 8 * j in stack;
    }
  }

  lemma NoBytes(sret: bool, args: seq<Arg>)
    ensures Bytes(sret, args, |args|) == 0
  {
  }

  /** Argument `k` has been loaded into the registers where the callee reads it. */
  predicate Loaded(sret: bool, args: seq<Arg>, k: nat, ints: seq<Option<Token>>, sses: seq<Option<Token>>)
    requires k < |args| && ArgOk(args[k])
  {
    forall j :: 0 <= j < Eightbytes(args[k]) ==>
      match CalleeReads(sret, args, k, j)
      case IntReg(i) => i < |ints| && ints[i] == Some(Part(k, j))
      case SseReg(i) => i < |sses| && sses[i] == Some(Part(k, j))
      case OnStack(_) => true
  }

  /** The first `j` eightbytes of argument `a` are in the registers its classes call for. */
  predicate LoadedTo(st: ArgState, cs: seq<Class>, a: nat, j: nat, ints: seq<Option<Token>>, sses: seq<Option<Token>>)
    requires j <= |cs|
  {
    forall i :: 0 <= i < j ==>
      if cs[i] == Integer then
        var r := st.ints + Count(cs, i, Integer); r < |ints| && ints[r] == Some(Part(a, i))
      else
        var r := st.sses + Count(cs, i, Sse); r < |sses| && sses[r] == Some(Part(a, i))
  }

  lemma LoadStep(st: ArgState, cs: seq<Class>, a: nat, j: nat, ints: seq<Option<Token>>, sses: seq<Option<Token>>)
    requires j < |cs| && LoadedTo(st, cs, a, j, ints, sses)
    ensures cs[j] == Integer && st.ints + Count(cs, j, Integer) < |ints| ==>
              LoadedTo(st, cs, a, j + 1, ints[st.ints + Count(cs, j, Integer) := Some(Part(a, j))], sses)
    ensures cs[j] != Integer && st.sses + Count(cs, j, Sse) < |sses|
            && (forall i :: 0 <= i < j ==> cs[i] == Integer || cs[i] == Sse) ==>
              LoadedTo(st, cs, a, j + 1, ints, sses[st.sses + Count(cs, j, Sse) := Some(Part(a, j))])
  {
    hide Count;
    forall i | 0 <= i < j
      ensures cs[i] == Integer ==> Count(cs, i, Integer) < Count(cs, j, Integer)
      ensures cs[i] == Sse ==> Count(cs, i, Sse) < Count(cs, j, Sse)
    {
      CountGrows(cs, i, j, Integer);
      CountGrows(cs, i, j, Sse);
    }
  }

  lemma CountNext(cs: seq<Class>, j: nat, c: Class)
    requires j < |cs|
    ensures Count(cs, j + 1, c) == Count(cs, j, c) + if cs[j] == c then 1 else 0
    ensures Count(cs, j + 1, c) <= Count(cs, |cs|, c)
  {
    CountGrows(cs, j + 1, |cs|, c);
  }

  method LoadScalar(cs: seq<Class>, a: nat, n0: nat, m0: nat, ints0: seq<Option<Token>>, sses0: seq<Option<Token>>)
    returns (n: nat, m: nat, ints: seq<Option<Token>>, sses: seq<Option<Token>>)
    requires |cs| == 1 && (cs[0] == Integer || cs[0] == Sse) && |ints0| == INT_REGS && |sses0| == SSE_REGS
    requires n0 + Count(cs, 1, Integer) <= INT_REGS && m0 + Count(cs, 1, Sse) <= SSE_REGS
    ensures n == n0 + Count(cs, 1, Integer) && m == m0 + Count(cs, 1, Sse) && |ints| == INT_REGS && |sses| == SSE_REGS
    ensures LoadedTo(ArgState(n0, m0, 0), cs, a, 1, ints, sses)
    ensures forall i :: 0 <= i < n0 ==> ints[i] == ints0[i]
    ensures forall i :: 0 <= i < m0 ==> sses[i] == sses0[i]
  {
    hide Count;
    n, m, ints, sses := n0, m0, ints0, sses0;
    ScalarCount(cs);
    if cs[0] == Sse {
      sses := sses[m := Some(Part(a, 0))];
      m := m + 1;
    } else {
      ints := ints[n := Some(Part(a, 0))];
      n := n + 1;
    }
  }

  /** Each eightbyte takes the next register of its class, the counters moving on. */
  method LoadAggregate(cs: seq<Class>, a: nat, n0: nat, m0: nat, ints0: seq<Option<Token>>, sses0: seq<Option<Token>>)
    returns (n: nat, m: nat, ints: seq<Option<Token>>, sses: seq<Option<Token>>)
    requires (forall j :: 0 <= j < |cs| ==> cs[j] == Integer || cs[j] == Sse)
    requires |ints0| == INT_REGS && |sses0| == SSE_REGS
    requires n0 + Count(cs, |cs|, Integer) <= INT_REGS && m0 + Count(cs, |cs|, Sse) <= SSE_REGS
    ensures n == n0 + Count(cs, |cs|, Integer) && m == m0 + Count(cs, |cs|, Sse)
    ensures |ints| == INT_REGS && |sses| == SSE_REGS
    ensures LoadedTo(ArgState(n0, m0, 0), cs, a, |cs|, ints, sses)
    ensures forall i :: 0 <= i < n0 ==> ints[i] == ints0[i]
    ensures forall i :: 0 <= i < m0 ==> sses[i] == sses0[i]
  {
    hide Count, LoadedTo;
    ghost var st := ArgState(n0, m0, 0);
    n, m, ints, sses := n0, m0, ints0, sses0;
    NoneCounted(cs);
    NoneLoaded(st, cs, a, ints, sses);
    for j := 0 to |cs|
      invariant |ints| == INT_REGS && |sses| == SSE_REGS
      invariant n == n0 + Count(cs, j, Integer) && m == m0 + Count(cs, j, Sse)
      invariant forall i :: 0 <= i < n0 ==> ints[i] == ints0[i]
      invariant forall i :: 0 <= i < m0 ==> sses[i] == sses0[i]
      invariant LoadedTo(st, cs, a, j, ints, sses)
    {
      CountNext(cs, j, Integer);
      CountNext(cs, j, Sse);
      LoadStep(st, cs, a, j, ints, sses);
      if cs[j] == Integer {
        ints := ints[n := Some(Part(a, j))];
        n := n + 1;
      } else if cs[j] == Sse {
        sses := sses[m := Some(Part(a, j))];
        m := m + 1;
      }
    }
  }

  lemma NoneLoaded(st: ArgState, cs: seq<Class>, a: nat, ints: seq<Option<Token>>, sses: seq<Option<Token>>)
    ensures LoadedTo(st, cs, a, 0, ints, sses)
  {
  }

  /** Loading one register argument. */
  method LoadArg(arg: Arg, a: nat, n0: nat, m0: nat, ints0: seq<Option<Token>>, sses0: seq<Option<Token>>)
    returns (n: nat, m: nat, ints: seq<Option<Token>>, sses: seq<Option<Token>>)
    requires ArgOk(arg) && Fits(n0, m0, arg) && |ints0| == INT_REGS && |sses0| == SSE_REGS
    ensures n == n0 + Ints(arg) && m == m0 + Sses(arg) && |ints| == INT_REGS && |sses| == SSE_REGS
    ensures LoadedTo(ArgState(n0, m0, 0), arg.classes, a, |arg.classes|, ints, sses)
    ensures forall i :: 0 <= i < n0 ==> ints[i] == ints0[i]
    ensures forall i :: 0 <= i < m0 ==> sses[i] == sses0[i]
  {
    hide Count, LoadedTo, Eightbytes;
    if arg.aggregate {
      n, m, ints, sses := LoadAggregate(arg.classes, a, n0, m0, ints0, sses0);
    } else {
      n, m, ints, sses := LoadScalar(arg.classes, a, n0, m0, ints0, sses0);
    }
  }

  lemma ScalarCount(cs: seq<Class>)
    requires |cs| == 1 && (cs[0] == Integer || cs[0] == Sse)
    ensures Count(cs, 0, Integer) == 0 && Count(cs, 0, Sse) == 0
    ensures Count(cs, 1, Integer) == (if cs[0] == Integer then 1 else 0)
    ensures Count(cs, 1, Sse) == (if cs[0] == Sse then 1 else 0)
  {
  }

  /** The registers that the counters called for are those the callee reads. */
  lemma LoadedIs(sret: bool, args: seq<Arg>, k: nat, st: ArgState, ints: seq<Option<Token>>, sses: seq<Option<Token>>)
    requires k < |args| && ArgOk(args[k]) && InRegs(sret, args, k)
    requires st.ints == State(sret, args, k).ints && st.sses == State(sret, args, k).sses
    requires LoadedTo(st, args[k].classes, k, |args[k].classes|, ints, sses)
    ensures Loaded(sret, args, k, ints, sses)
  {
    hide State, Count;
  }

  lemma NoneCounted(cs: seq<Class>)
    ensures Count(cs, 0, Integer) == 0 && Count(cs, 0, Sse) == 0
  {
  }

  lemma LoadedKept(sret: bool, args: seq<Arg>, k: nat, a: nat, ints0: seq<Option<Token>>, sses0: seq<Option<Token>>,
                   ints: seq<Option<Token>>, sses: seq<Option<Token>>)
    requires k < a <= |args| && ArgOk(args[k]) && Loaded(sret, args, k, ints0, sses0)
    requires |ints| == |ints0| == INT_REGS && |sses| == |sses0| == SSE_REGS
    requires forall i :: 0 <= i < State(sret, args, a).ints && i < INT_REGS ==> ints[i] == ints0[i]
    requires forall i :: 0 <= i < State(sret, args, a).sses && i < SSE_REGS ==> sses[i] == sses0[i]
    ensures Loaded(sret, args, k, ints, sses)
  {
    hide State, CalleeReads, Eightbytes, ArgOk;
    StateGrows(sret, args, k + 1, a);
    forall j | 0 <= j < Eightbytes(args[k])
      ensures match CalleeReads(sret, args, k, j)
              case IntReg(i) => i < |ints| && ints[i] == Some(Part(k, j))
              case SseReg(i) => i < |sses| && sses[i] == Some(Part(k, j))
              case OnStack(_) => true
    {
      PlaceBounds(sret, args, k, j);
    }
  }

  lemma StateStep(sret: bool, args: seq<Arg>, a: nat)
    requires a < |args|
    ensures var s, t := State(sret, args, a), State(sret, args, a + 1);
            && t.ints == s.ints + (if InRegs(sret, args, a) then Ints(args[a]) else 0)
            && t.sses == s.sses + (if InRegs(sret, args, a) then Sses(args[a]) else 0)
            && (InRegs(sret, args, a) <==> Fits(s.ints, s.sses, args[a]))
            && s.ints <= INT_REGS && s.sses <= SSE_REGS
  {
    hide Count;
    StateGrows(sret, args, a, a + 1);
  }

  /**
   The third pass, with its own counters and its own test of what fits, and the hidden return
   pointer, which goes to the first integer register.
   */
  method LoadArgs(sret: bool, args: seq<Arg>) returns (ints: seq<Option<Token>>, sses: seq<Option<Token>>)
    requires ArgsOk(args)
    ensures |ints| == INT_REGS && |sses| == SSE_REGS
    ensures forall k :: 0 <= k < |args| && InRegs(sret, args, k) ==> Loaded(sret, args, k, ints, sses)
    ensures sret ==> ints[0] == Some(SretPointer)
  {
    hide ArgOk, CalleeReads, State, Eightbytes, Count, InRegs, Loaded, LoadedTo;
    ints, sses := seq(INT_REGS, i => None), seq(SSE_REGS, i => None);
    var intUsed, sseUsed := if sret then 1 else 0, 0;
    StateStart(sret, args);
    for a := 0 to |args|
      invariant |ints| == INT_REGS && |sses| == SSE_REGS
      invariant intUsed >= 0 && sseUsed >= 0
      invariant intUsed == State(sret, args, a).ints && sseUsed == State(sret, args, a).sses
      invariant forall k :: 0 <= k < a && InRegs(sret, args, k) ==> Loaded(sret, args, k, ints, sses)
    {
      StateStep(sret, args, a);
      if Memory in args[a].classes { continue; }
      var n, m := CountClasses(args[a].classes);
      if intUsed + n > INT_REGS || sseUsed + m > SSE_REGS { continue; }
      ghost var st := ArgState(intUsed, sseUsed, 0);
      var ints0, sses0 := ints, sses;
      intUsed, sseUsed, ints, sses := LoadArg(args[a], a, intUsed, sseUsed, ints0, sses0);
      LoadedIs(sret, args, a, st, ints, sses);
      forall k | 0 <= k < a && InRegs(sret, args, k)
        ensures Loaded(sret, args, k, ints, sses)
      {
        LoadedKept(sret, args, k, a, ints0, sses0, ints, sses);
      }
    }
    if sret {
      var ints0 := ints;
      ints := ints[0 := Some(SretPointer)];
      forall k | 0 <= k < |args| && InRegs(sret, args, k)
        ensures Loaded(sret, args, k, ints, sses)
      {
        SretKept(args, k, ints0, ints, sses);
      }
    }
  }

  lemma StateStart(sret: bool, args: seq<Arg>)
    ensures State(sret, args, 0) == ArgState(if sret then 1 else 0, 0, 16)
  {
  }

  lemma SretKept(args: seq<Arg>, k: nat, ints0: seq<Option<Token>>, ints: seq<Option<Token>>, sses: seq<Option<Token>>)
    requires k < |args| && ArgOk(args[k]) && Loaded(true, args, k, ints0, sses)
    requires |ints| == |ints0| && forall i :: 1 <= i < |ints| ==> ints[i] == ints0[i]
    ensures Loaded(true, args, k, ints, sses)
  {
    hide State, CalleeReads, Eightbytes, ArgOk;
    StateGrows(true, args, 0, k);
    assert State(true, args, 0).ints == 1 by { SretFirst(args); }
    forall j | 0 <= j < Eightbytes(args[k])
      ensures match CalleeReads(true, args, k, j)
              case IntReg(i) => i < |ints| && ints[i] == Some(Part(k, j))
              case SseReg(i) => i < |sses| && sses[i] == Some(Part(k, j))
              case OnStack(_) => true
    {
      PlaceBounds(true, args, k, j);
    }
  }

  lemma SretFirst(args: seq<Arg>)
    ensures State(true, args, 0).ints == 1
  {
  }

  // ----- the callee -----

  /** What stands at a place; the callee's %rbp is 16 below the caller's %rsp at the call. */
  function ReadAt(c: CallSite, w: Where): Option<Token> {
    match w
    case IntReg(i) => if i < |c.ints| then c.ints[i] else None
    case SseReg(i) => if i < |c.sses| then c.sses[i] else None
    case OnStack(off) => if c.rsp - 16 + off in c.stack then Some(c.stack[c.rsp - 16 + off]) else None
  }

  /**
   The capture of parameter `k`: the state before it is computed once more, and the eightbytes are
   taken from the registers, counting on, or from the stack.
   */
  method CaptureParam(sret: bool, params: seq<Arg>, k: nat, c: CallSite) returns (got: seq<Option<Token>>)
    requires ArgsOk(params) && k < |params| && |c.ints| == INT_REGS && |c.sses| == SSE_REGS
    ensures |got| == Eightbytes(params[k])
    ensures forall j :: 0 <= j < |got| ==> got[j] == ReadAt(c, CalleeReads(sret, params, k, j))
  {
    hide Count, State;
    var p := params[k];
    assert ArgOk(p);
    var st := ComputeArgState(sret, params, k);
    StateStep(sret, params, k);
    NoneCounted(p.classes);
    got := [];
    if Memory !in p.classes {
      var n, m := CountClasses(p.classes);
      if st.ints + n <= INT_REGS && st.sses + m <= SSE_REGS {
        var i, x := st.ints, st.sses;
        for j := 0 to |p.classes|
          invariant |got| == j
          invariant i == st.ints + Count(p.classes, j, Integer) && x == st.sses + Count(p.classes, j, Sse)
          invariant forall l :: 0 <= l < j ==> got[l] == ReadAt(c, CalleeReads(sret, params, k, l))
        {
          CountNext(p.classes, j, Integer);
          CountNext(p.classes, j, Sse);
          if p.classes[j] == Integer {
            got := got + [c.ints[i]];
            i := i + 1;
          } else if p.classes[j] == Sse {
            got := got + [c.sses[x]];
            x := x + 1;
          }
        }
        return;
      }
    }
    for j := 0 to Eightbytes(p)
      invariant |got| == j
      invariant forall l :: 0 <= l < j ==> got[l] == ReadAt(c, OnStack(st.stack + 8 * l))
    {
      got := got + [ReadAt(c, OnStack(st.stack + 8 * j))];
    }
  }

  /** An argument as the callee should have it: all its eightbytes in order. */
  function AllParts(k: nat, n: nat): seq<Option<Token>> {
    seq(n, j requires 0 <= j < n => Some(Part(k, j)))
  }

  /** The callee pushes the return address and %rbp, so its %rbp + 16 is the caller's %rsp. */
  predicate Finds(sret: bool, args: seq<Arg>, c: CallSite, k: nat, j: nat)
    requires ArgsOk(args) && k < |args| && j < Eightbytes(args[k])
  {
    match CalleeReads(sret, args, k, j)
    case IntReg(i) => i < |c.ints| && c.ints[i] == Some(Part(k, j))
    case SseReg(i) => i < |c.sses| && c.sses[i] == Some(Part(k, j))
    case OnStack(off) => c.rsp - 16 + off in c.stack && c.stack[c.rsp - 16 + off] == Part(k, j)
  }

  lemma FindsOne(sret: bool, args: seq<Arg>, rsp0: int, c: CallSite, k: nat, j: nat)
    requires ArgsOk(args) && k < |args| && j < Eightbytes(args[k])
    requires c.rsp == rsp0 - Bytes(sret, args, 0)
    requires if InRegs(sret, args, k) then Loaded(sret, args, k, c.ints, c.sses)
             else Pushed(sret, args, k, rsp0, c.stack)
    ensures Finds(sret, args, c, k, j)
  {
    hide Count, Fits, InRegs;
    assert ArgOk(args[k]);
    assert State(sret, args, 0).stack == 16;
    assert Bytes(sret, args, 0) - Bytes(sret, args, k) == State(sret, args, k).stack - 16;
    if !InRegs(sret, args, k) {
      assert StandsAt(c.stack, rsp0 - Bytes(sret, args, k), k, j);
    }
  }

  /**
   A call in a function whose %rbp is 16-aligned and whose frame is `frameSize` bytes. The callee
   captures every eightbyte of every argument, each in its own parameter; as many bytes are pushed as
   were counted, so that %rsp is 16-aligned at the call and the final `addq` restores it.
   */
  method Call(sret: bool, args: seq<Arg>, rbp: int, frameSize: int)
    returns (c: CallSite, captured: seq<seq<Option<Token>>>, restored: int)
    requires ArgsOk(args) && rbp % 16 == 0 && frameSize % 16 == 0
    ensures sret ==> |c.ints| > 0 && c.ints[0] == Some(SretPointer)
    ensures |captured| == |args|
    ensures forall k :: 0 <= k < |args| ==> captured[k] == AllParts(k, Eightbytes(args[k]))
    ensures c.rsp % 16 == 0
    ensures restored == rbp - frameSize
  {
    hide AlignUp, ArgOk, CalleeReads, State;
    var rsp := rbp - frameSize;
    var bytes := CountStackBytes(sret, args);
    assert bytes == Bytes(sret, args, 0) by { CountedIsPushed(sret, args); }
    var pad := 0;
    if (frameSize + bytes) % 16 != 0 {
      pad := 16 - (frameSize + bytes) % 16;
      rsp := rsp - pad;
    }
    var rsp1, stack := PushArgs(sret, args, rsp);
    var ints, sses := LoadArgs(sret, args);
    c := CallSite(rsp1, stack, ints, sses);
    PadAligns(rbp, frameSize + bytes, pad);
    forall k, j | 0 <= k < |args| && 0 <= j < Eightbytes(args[k])
      ensures Finds(sret, args, c, k, j)
    {
      FindsOne(sret, args, rsp, c, k, j);
    }
    captured := [];
    for k := 0 to |args|
      invariant |captured| == k
      invariant forall l :: 0 <= l < k ==> captured[l] == AllParts(l, Eightbytes(args[l]))
    {
      var got := CaptureParam(sret, args, k, c);
      forall j | 0 <= j < |got|
        ensures got[j] == Some(Part(k, j))
      {
        assert Finds(sret, args, c, k, j);
      }
      captured := captured + [got];
    }
    restored := c.rsp;
    if bytes + pad > 0 {
      restored := restored + (bytes + pad);
    }
  }

  lemma PadAligns(rbp: int, used: int, pad: int)
    requires rbp % 16 == 0 && pad == if used % 16 == 0 then 0 else 16 - used % 16
    ensures (rbp - (used + pad)) % 16 == 0
  {
  }

  lemma CountedIsPushed(sret: bool, args: seq<Arg>)
    ensures State(sret, args, |args|).stack - 16 == Bytes(sret, args, 0)
  {
  }

  // ----- copying an aggregate -----

  /** One move: the `n` bytes at `off` go through a register. */
  lemma MoveBytes(mem: Mem, mem0: Mem, dst: int, src: int, off: nat, n: nat, size: nat)
    requires InBounds(mem0, dst, size) && InBounds(mem0, src, size) && (dst + size <= src || src + size <= dst)
    requires off + n <= size && mem == Write(mem0, dst, Read(mem0, src, off))
    ensures InBounds(mem, src + off, n)
    ensures Write(mem, dst + off, Read(mem, src + off, n)) == Write(mem0, dst, Read(mem0, src, off + n))
  {
    assert forall x :: src + off <= x < src + off + n ==> x in mem0 && x in mem && mem[x] == mem0[x];
  }

  /** `emit_copy_bytes`: by eights, then a four, a two and a one as the rest requires. */
  method CopyBytes(mem0: Mem, dst: int, src: int, size: nat) returns (mem: Mem)
    requires InBounds(mem0, dst, size) && InBounds(mem0, src, size) && (dst + size <= src || src + size <= dst)
    ensures mem == Write(mem0, dst, Read(mem0, src, size))
  {
    hide Read, Write;
    var off := 0;
    mem := mem0;
    NothingCopied(mem0, dst, src);
    while off + 8 <= size
      invariant 0 <= off <= size && mem == Write(mem0, dst, Read(mem0, src, off))
    {
      MoveBytes(mem, mem0, dst, src, off, 8, size);
      mem := Write(mem, dst + off, Read(mem, src + off, 8));
      off := off + 8;
    }
    if off + 4 <= size {
      MoveBytes(mem, mem0, dst, src, off, 4, size);
      mem := Write(mem, dst + off, Read(mem, src + off, 4));
      off := off + 4;
    }
    if off + 2 <= size {
      MoveBytes(mem, mem0, dst, src, off, 2, size);
      mem := Write(mem, dst + off, Read(mem, src + off, 2));
      off := off + 2;
    }
    if off < size {
      MoveBytes(mem, mem0, dst, src, off, 1, size);
      mem := Write(mem, dst + off, Read(mem, src + off, 1));
      off := off + 1;
    }
  }

  lemma NothingCopied(mem: Mem, dst: int, src: int)
    ensures InBounds(mem, src, 0) && Write(mem, dst, Read(mem, src, 0)) == mem
  {
  }
}
